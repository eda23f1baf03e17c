/** What sys_next and dev_find read, in terms of the words and lines of the two files rather than of
    the code that takes them apart (chapter18/sysfile.c, devfile.c). */
module Lines {
  import opened Text
  import opened Records
  import opened Systems
  import opened Search

  // ---- Words ----

  predicate Gap(g: CStr) {
    forall i | 0 <= i < |g| :: IsWhite(g[i])
  }

  predicate Word(w: CStr) {
    w != [] && forall i | 0 <= i < |w| :: !IsWhite(w[i]) && w[i] != NUL
  }

  /** A line as its words, each with the white space before it, and the white space at the end. */
  datatype Spelt = Spelt(words: seq<CStr>, gaps: seq<CStr>, tail: CStr)

  function TextOf(s: Spelt): CStr
    decreases |s.words|
  {
    if |s.words| == 0 || |s.gaps| == 0 then s.tail
    else s.gaps[0] + s.words[0] + TextOf(Spelt(s.words[1..], s.gaps[1..], s.tail))
  }

  /** Words are parted by white space; before the first one there may be none. */
  predicate Proper(s: Spelt) {
    && |s.gaps| == |s.words|
    && (forall i | 0 <= i < |s.words| :: Word(s.words[i]) && Gap(s.gaps[i]) && (i > 0 ==> s.gaps[i] != []))
    && Gap(s.tail)
  }

  lemma {:induction false} SkipGap(g: CStr, s: CStr)
    requires Gap(g) && (s == [] || !IsWhite(s[0]))
    ensures SkipWhite(g + s) == s
  {
    if |g| == 0 {
      assert g + s == s;
    } else {
      assert (g + s)[1..] == g[1..] + s;
      SkipGap(g[1..], s);
    }
  }

  lemma {:induction false} WordLength(w: CStr, s: CStr)
    requires (forall i | 0 <= i < |w| :: !IsWhite(w[i])) && (s == [] || IsWhite(s[0]))
    ensures TokenLength(w + s) == |w|
  {
    if |w| == 0 {
      assert w + s == s;
    } else {
      assert (w + s)[1..] == w[1..] + s;
      WordLength(w[1..], s);
    }
  }

  lemma TokenOf(g: CStr, w: CStr, s: CStr)
    requires Gap(g) && Word(w) && (s == [] || IsWhite(s[0]))
    ensures Token(g + w + s) == Some((w, if s == [] then [] else s[1..]))
  {
    assert g + w + s == g + (w + s);
    SkipGap(g, w + s);
    WordLength(w, s);
    assert (w + s)[..|w|] == w;
    assert s != [] ==> (w + s)[|w| + 1..] == s[1..];
  }

  lemma NoToken(g: CStr)
    requires Gap(g)
    ensures Token(g) == None
  {
    assert g + [] == g;
    SkipGap(g, []);
  }

  /** What is left of a line when strtok has taken its first word and the byte after it. */
  function Taken1(s: Spelt): (r: Spelt)
    requires Proper(s) && |s.words| > 0
    ensures Proper(r) && r.words == s.words[1..]
  {
    if |s.words| == 1 then Spelt([], [], if s.tail == [] then [] else s.tail[1..])
    else Spelt(s.words[1..], [s.gaps[1][1..]] + s.gaps[2..], s.tail)
  }

  lemma TakesWord(s: Spelt)
    requires Proper(s) && |s.words| > 0
    ensures Token(TextOf(s)) == Some((s.words[0], TextOf(Taken1(s))))
  {
    hide Token, Taken1;
    var more := Spelt(s.words[1..], s.gaps[1..], s.tail);
    assert TextOf(s) == s.gaps[0] + s.words[0] + TextOf(more);
    StartsWhite(s);
    AfterWord(s);
    TokenOf(s.gaps[0], s.words[0], TextOf(more));
  }

  lemma StartsWhite(s: Spelt)
    requires Proper(s) && |s.words| > 0
    ensures var more := TextOf(Spelt(s.words[1..], s.gaps[1..], s.tail)); more == [] || IsWhite(more[0])
  {
    var more := Spelt(s.words[1..], s.gaps[1..], s.tail);
    if |more.words| > 0 {
      assert TextOf(more)[0] == s.gaps[1][0];
    }
  }

  lemma AfterWord(s: Spelt)
    requires Proper(s) && |s.words| > 0
    ensures var more := TextOf(Spelt(s.words[1..], s.gaps[1..], s.tail));
            TextOf(Taken1(s)) == if more == [] then [] else more[1..]
  {
    if |s.words| > 1 {
      var more, after := Spelt(s.words[1..], s.gaps[1..], s.tail), Taken1(s);
      var rest := TextOf(Spelt(more.words[1..], more.gaps[1..], s.tail));
      assert after.gaps[1..] == more.gaps[1..];
      assert TextOf(more) == s.gaps[1] + s.words[1] + rest;
      assert TextOf(after) == s.gaps[1][1..] + s.words[1] + rest;
    }
  }

  lemma {:induction false} TextIsCString(s: Spelt)
    requires Proper(s)
    ensures CString(TextOf(s))
    decreases |s.words|
  {
    if |s.words| > 0 {
      var more := Spelt(s.words[1..], s.gaps[1..], s.tail);
      assert Word(s.words[0]) && Gap(s.gaps[0]);
      TextIsCString(more);
    }
  }

  /** Exactly what sys_next makes of a line: a line that begins with a newline or whose first word
      begins with a number sign is skipped, and an entry needs five words and one more byte, after the
      white-space byte that ends the fifth, that is not a newline. Its system, type and class are the
      first, third and fourth word. */
  lemma ParseMeans(s: Spelt)
    requires Proper(s)
    ensures ParseLine(TextOf(s)) ==
              if |s.words| == 0 then (if s.tail != [] && s.tail[0] == NEWLINE then Skipped else Malformed)
              else if s.words[0][0] == HASH_SIGN then Skipped
              else if |s.words| > 5 || (|s.words| == 5 && |s.tail| > 1 && exists i | 1 <= i < |s.tail| ::
                                          s.tail[i] != NEWLINE)
              then Parsed(Entry(s.words[0], s.words[2], s.words[3]))
              else Malformed
  {
    hide Token, HasLogin, TextOf, Taken1;
    TextIsCString(s);
    if |s.words| == 0 {
      OnlyTail(s);
      NoToken(s.tail);
    } else {
      TakesWord(s);
      var s1 := Taken1(s);
      if |s.words| < 5 {
        FewWords(s1);
      } else {
        var s2 := Taken1(s1);
        var s3 := Taken1(s2);
        var s4 := Taken1(s3);
        TakesWord(s1);
        TakesWord(s2);
        TakesWord(s3);
        TakesWord(s4);
        LoginLeft(Taken1(s4));
        FiveTaken(s);
      }
    }
  }

  lemma OnlyTail(s: Spelt)
    requires Proper(s) && |s.words| == 0
    ensures TextOf(s) == s.tail
  {
  }

  /** After the first of fewer than five words, one of the next four strtok calls finds nothing. */
  lemma FewWords(s: Spelt)
    requires Proper(s) && |s.words| < 4
    ensures var t1 := Token(TextOf(s));
            t1.Some? ==>
              var t2 := Token(t1.value.1);
              t2.Some? ==>
                var t3 := Token(t2.value.1);
                t3.Some? ==> Token(t3.value.1) == None
  {
    hide Token, TextOf, Taken1;
    Ends(s);
    if |s.words| > 0 {
      TakesWord(s);
      var s1 := Taken1(s);
      Ends(s1);
      if |s1.words| > 0 {
        TakesWord(s1);
        var s2 := Taken1(s1);
        Ends(s2);
        if |s2.words| > 0 {
          TakesWord(s2);
          Ends(Taken1(s2));
        }
      }
    }
  }

  lemma Ends(s: Spelt)
    requires Proper(s)
    ensures |s.words| == 0 ==> Token(TextOf(s)) == None
  {
    if |s.words| == 0 {
      NoToken(s.tail);
    }
  }

  lemma LoginLeft(s: Spelt)
    requires Proper(s)
    ensures HasLogin(TextOf(s)) <==> |s.words| > 0 || exists i | 0 <= i < |s.tail| :: s.tail[i] != NEWLINE
  {
    if |s.words| > 0 {
      var t := TextOf(s);
      assert t[|s.gaps[0]|] == s.words[0][0];
    }
  }

  lemma FiveTaken(s: Spelt)
    requires Proper(s) && |s.words| >= 5
    ensures var r := Taken1(Taken1(Taken1(Taken1(Taken1(s)))));
            && r.words == s.words[5..]
            && (|s.words| == 5 ==> r.tail == if s.tail == [] then [] else s.tail[1..])
            && (|s.words| == 5 ==> ((exists i | 0 <= i < |r.tail| :: r.tail[i] != NEWLINE)
                                    <==> exists i | 1 <= i < |s.tail| :: s.tail[i] != NEWLINE))
  {
    var s1 := Taken1(s);
    var s2 := Taken1(s1);
    var s3 := Taken1(s2);
    var s4 := Taken1(s3);
    var r := Taken1(s4);
    assert s4.words == s.words[4..] && r.words == s.words[5..];
    if |s.words| == 5 {
      assert s1.tail == s2.tail == s3.tail == s4.tail == s.tail;
      if i :| 1 <= i < |s.tail| && s.tail[i] != NEWLINE {
        assert r.tail[i - 1] == s.tail[i];
      }
      if i :| 0 <= i < |r.tail| && r.tail[i] != NEWLINE {
        assert s.tail[i + 1] == r.tail[i];
      }
    }
  }

  lemma FirstByte(s: Spelt)
    requires Proper(s)
    ensures |s.words| > 0 ==> TextOf(s) != [] && (IsWhite(TextOf(s)[0]) <==> s.gaps[0] != [])
  {
    if |s.words| > 0 {
      assert TextOf(s)[0] == (s.gaps[0] + s.words[0])[0];
    }
  }

  /** Every line without a NUL has a spelling, so the above says what every such line is. */
  lemma {:induction false} SpeltSomehow(text: CStr) returns (s: Spelt)
    requires CString(text)
    ensures Proper(s) && TextOf(s) == text
    decreases |text|
  {
    var g := 0;
    while g < |text| && IsWhite(text[g])
      invariant g <= |text| && Gap(text[..g])
    {
      g := g + 1;
    }
    if g == |text| {
      s := Spelt([], [], text);
    } else {
      var w := g;
      while w < |text| && !IsWhite(text[w])
        invariant g <= w <= |text| && forall i | g <= i < w :: !IsWhite(text[i])
      {
        w := w + 1;
      }
      var r := SpeltSomehow(text[w..]);
      FirstByte(r);
      s := Spelt([text[g..w]] + r.words, [text[..g]] + r.gaps, r.tail);
      assert s.words[1..] == r.words && s.gaps[1..] == r.gaps;
      assert text == text[..g] + text[g..w] + text[w..];
    }
  }

  // ---- Lines ----

  /** fgets stops after the first newline, after MAXLINE - 1 bytes, or at the end of the file. */
  lemma FgetsStops(file: seq<byte>, pos: nat)
    requires pos < |file|
    ensures var r := LineEnd(file, pos);
            && pos < r <= |file| && r - pos < MAXLINE && NEWLINE !in file[pos..r - 1]
            && (file[r - 1] == NEWLINE || r == pos + MAXLINE - 1 || r == |file|)
  {
    var i := IndexOf(file[pos..], NEWLINE);
    var r := LineEnd(file, pos);
    assert file[pos..r - 1] == file[pos..][..i][..r - 1 - pos];
  }

  /** A line that fgets reads whole. */
  predicate WholeLine(l: seq<byte>) {
    0 < |l| < MAXLINE && l[|l| - 1] == NEWLINE && NEWLINE !in l[..|l| - 1]
  }

  function Joined(ls: seq<seq<byte>>): seq<byte> {
    if |ls| == 0 then [] else ls[0] + Joined(ls[1..])
  }

  lemma ReadsLine(pre: seq<byte>, l: seq<byte>, rest: seq<byte>)
    requires WholeLine(l)
    ensures LineEnd(pre + l + rest, |pre|) == |pre| + |l|
    ensures (pre + l + rest)[|pre|..|pre| + |l|] == l
  {
    var front := l[..|l| - 1];
    assert (pre + l + rest)[|pre|..] == front + [NEWLINE] + rest;
    IndexOfFirst(front, NEWLINE, rest);
  }

  /** The entries that these lines list, with the position after each, up to a malformed line. */
  function Listed(ls: seq<seq<byte>>, pos: nat): seq<Place> {
    if |ls| == 0 then []
    else
      match ParseLine(ls[0])
      case Malformed => []
      case Skipped => Listed(ls[1..], pos + |ls[0]|)
      case Parsed(e) => [Place(e, pos + |ls[0]|)] + Listed(ls[1..], pos + |ls[0]|)
  }

  /** Reading a file from the start of a line gives exactly the entries of the lines from there on, in
      order, and comes to a malformed line if and only if there is one. */
  lemma {:induction false} AheadOfLines(pre: seq<byte>, ls: seq<seq<byte>>)
    requires forall l | l in ls :: WholeLine(l)
    ensures Ahead(pre + Joined(ls), |pre|) == Listed(ls, |pre|)
    ensures Breaks(pre + Joined(ls), |pre|) <==> exists l | l in ls :: ParseLine(l) == Malformed
    decreases |ls|
  {
    hide ParseLine, LineEnd, WholeLine, Ahead, Breaks;
    var file := pre + Joined(ls);
    if |ls| == 0 {
      NoneAhead(file);
    } else {
      var l, rest := ls[0], ls[1..];
      assert l in ls;
      NextJoined(pre, ls);
      LineNotEmpty(l);
      ReadsLine(pre, l, Joined(rest));
      AheadOfLines(pre + l, rest);
      NextLine(file, |pre|, l);
      assert (exists x | x in ls :: ParseLine(x) == Malformed)
        <==> ParseLine(l) == Malformed || exists x | x in rest :: ParseLine(x) == Malformed;
    }
  }

  lemma NoneAhead(file: seq<byte>)
    ensures Ahead(file, |file|) == [] && !Breaks(file, |file|)
  {
  }

  lemma NextJoined(pre: seq<byte>, ls: seq<seq<byte>>)
    requires |ls| > 0
    ensures pre + Joined(ls) == pre + ls[0] + Joined(ls[1..])
  {
    assert Joined(ls) == ls[0] + Joined(ls[1..]);
    ConcatAssoc(pre, ls[0], Joined(ls[1..]));
  }

  lemma ConcatAssoc(a: seq<byte>, b: seq<byte>, c: seq<byte>)
    ensures a + (b + c) == a + b + c
  {
  }

  lemma LineNotEmpty(l: seq<byte>)
    requires WholeLine(l)
    ensures |l| > 0
  {
  }

  /** One line of the file. */
  lemma NextLine(file: seq<byte>, pos: nat, l: seq<byte>)
    requires pos < |file| && LineEnd(file, pos) == pos + |l| <= |file| && file[pos..pos + |l|] == l
    ensures match ParseLine(l)
            case Malformed => Ahead(file, pos) == [] && Breaks(file, pos)
            case Skipped => Ahead(file, pos) == Ahead(file, pos + |l|) && Breaks(file, pos) == Breaks(file, pos + |l|)
            case Parsed(e) =>
              && Ahead(file, pos) == [Place(e, pos + |l|)] + Ahead(file, pos + |l|)
              && Breaks(file, pos) == Breaks(file, pos + |l|)
  {
    hide ParseLine, LineEnd;
  }

  // ---- Devices ----

  /** Device d is the first of this type and class. */
  predicate IsFirst(devices: seq<Device>, kind: CStr, class_: CStr, d: nat) {
    && d < |devices| && devices[d].kind == kind && devices[d].class_ == class_
    && forall j | 0 <= j < d :: !(devices[j].kind == kind && devices[j].class_ == class_)
  }

  /** dev_find finds the line of the first device that has both the type and the class, and fails if
      and only if none has. */
  lemma {:induction false} FindsFirst(devices: seq<Device>, e: Entry)
    ensures forall d: nat | IsFirst(devices, e.kind, e.class_, d) :: FindDevice(devices, e) == Some(devices[d].line)
    ensures FindDevice(devices, e).Some? <==> exists d: nat :: IsFirst(devices, e.kind, e.class_, d)
    ensures FindDevice(devices, e).None? <==>
              forall d | 0 <= d < |devices| :: !(devices[d].kind == e.kind && devices[d].class_ == e.class_)
  {
    if |devices| > 0 {
      var rest := devices[1..];
      FindsFirst(rest, e);
      if devices[0].kind == e.kind && devices[0].class_ == e.class_ {
        assert IsFirst(devices, e.kind, e.class_, 0);
      } else {
        forall d: nat | IsFirst(devices, e.kind, e.class_, d) ensures d > 0 && IsFirst(rest, e.kind, e.class_, d - 1) {
          assert forall j | 0 <= j < d - 1 :: rest[j] == devices[j + 1];
        }
        forall d: nat | IsFirst(rest, e.kind, e.class_, d) ensures IsFirst(devices, e.kind, e.class_, d + 1) {
          assert forall j | 0 < j < d + 1 :: devices[j] == rest[j - 1];
        }
        assert forall d | 0 < d < |devices| :: devices[d] == rest[d - 1];
      }
    }
  }

  // ---- A Systems file of entries ----

  predicate EntryLine(s: Spelt) {
    Proper(s) && |s.words| >= 6 && s.words[0][0] != HASH_SIGN && WholeLine(TextOf(s))
  }

  ghost predicate AllEntries(ss: seq<Spelt>) {
    forall s | s in ss :: EntryLine(s)
  }

  function Texts(ss: seq<Spelt>): seq<seq<byte>> {
    seq(|ss|, i requires 0 <= i < |ss| => TextOf(ss[i]))
  }

  /** What the entry of a line should be. */
  predicate EntryOf(s: Spelt, e: Entry) {
    |s.words| >= 6 && e == Entry(s.words[0], s.words[2], s.words[3])
  }

  lemma {:induction false} ListsEntries(ss: seq<Spelt>, pos: nat)
    requires AllEntries(ss)
    ensures var es := Listed(Texts(ss), pos); |es| == |ss| && forall k | 0 <= k < |ss| :: EntryOf(ss[k], es[k].entry)
    decreases |ss|
  {
    hide ParseLine, TextOf, EntryLine, EntryOf;
    if |ss| > 0 {
      assert ss[0] in ss;
      assert Texts(ss)[1..] == Texts(ss[1..]);
      IsEntry(ss[0]);
      var e := ParseLine(TextOf(ss[0])).entry;
      ListsEntries(ss[1..], pos + |Texts(ss)[0]|);
      var es, more := Listed(Texts(ss), pos), Listed(Texts(ss[1..]), pos + |Texts(ss)[0]|);
      assert es == [Place(e, pos + |Texts(ss)[0]|)] + more;
      forall k | 0 <= k < |ss| ensures EntryOf(ss[k], es[k].entry) {
        if k > 0 {
          assert es[k] == more[k - 1] && ss[k] == ss[1..][k - 1];
        }
      }
    }
  }

  lemma IsEntry(s: Spelt)
    requires EntryLine(s)
    ensures WholeLine(TextOf(s)) && ParseLine(TextOf(s)).Parsed? && EntryOf(s, ParseLine(TextOf(s)).entry)
  {
    ParseMeans(s);
  }

  /** A file of entry lines is read as exactly their entries, in order. */
  lemma AheadOfEntries(ss: seq<Spelt>)
    requires AllEntries(ss)
    ensures var file := Joined(Texts(ss));
            var es := Ahead(file, 0);
            !Breaks(file, 0) && |es| == |ss| && forall k | 0 <= k < |ss| :: EntryOf(ss[k], es[k].entry)
  {
    hide ParseLine, TextOf, WholeLine, Listed, EntryOf, EntryLine, Ahead, Breaks;
    forall l | l in Texts(ss) ensures WholeLine(l) && ParseLine(l) != Malformed {
      var i :| 0 <= i < |ss| && l == Texts(ss)[i];
      assert ss[i] in ss;
      IsEntry(ss[i]);
    }
    assert [] + Joined(Texts(ss)) == Joined(Texts(ss));
    AheadOfLines([], Texts(ss));
    ListsEntries(ss, 0);
  }

  /** The line is for the system, and at the speed, that is asked for; no speed is any speed. */
  predicate Wanted(s: Spelt, sysname: CStr, speed: CStr) {
    |s.words| >= 6 && s.words[0] == sysname && (speed == [] || s.words[3] == speed)
  }

  /** The first device of the line's type and class is this one, and it is free, or is not. */
  predicate Offers(q: Query, s: Spelt, d: nat, free: bool) {
    && |s.words| >= 6 && IsFirst(q.devices, s.words[2], s.words[3], d)
    && (free <==> q.devices[d].line !in q.held || q.held[q.devices[d].line] == 0)
  }

  /** Line k is the first wanted one whose first device is not taken, and that device is free. */
  ghost predicate Connects(q: Query, ss: seq<Spelt>, k: nat, d: nat) {
    && k < |ss| && Wanted(ss[k], q.sysname, q.speed) && Offers(q, ss[k], d, true)
    && forall j | 0 <= j < k && Wanted(ss[j], q.sysname, q.speed) :: exists e: nat :: Offers(q, ss[j], e, false)
  }

  predicate DeviceIs(q: Query, e: Entry, d: nat) {
    d < |q.devices| && DeviceOf(q, e) == Some(q.devices[d].line)
  }

  lemma HitIsWanted(q: Query, s: Spelt, e: Entry)
    requires EntryOf(s, e)
    ensures Hit(q, e) <==> Wanted(s, q.sysname, q.speed)
    ensures Taken(q, e) <==> exists d: nat :: Offers(q, s, d, false)
    ensures DeviceOf(q, e).Some? && !Taken(q, e) <==> exists d: nat :: Offers(q, s, d, true)
    ensures forall d: nat | Offers(q, s, d, true) :: DeviceIs(q, e, d)
  {
    hide FindDevice;
    FindsFirst(q.devices, e);
    if DeviceOf(q, e).Some? {
      var d: nat :| IsFirst(q.devices, e.kind, e.class_, d);
      assert Offers(q, s, d, !Taken(q, e));
    }
  }

  /** request() on a file of entry lines dials the line of a device if and only if some line is for the
      system and speed, its first device of the type and class is free, and every earlier line for
      them has its first device taken. */
  lemma RequestDials(q: Query, ss: seq<Spelt>, found: int, text: ErrMsg)
    requires AllEntries(ss) && q.file == Joined(Texts(ss))
    ensures Choose(q, 0, found, text).Dial? <==> exists k: nat, d: nat :: Connects(q, ss, k, d)
    ensures forall k: nat, d: nat | Connects(q, ss, k, d) :: DialsDevice(q, Choose(q, 0, found, text), d)
  {
    hide Choose, Ahead, Breaks, Hit, Taken, DeviceOf, AllEntries, EntryOf, Wanted, Offers, Texts, Joined, Hits,
      DeviceIs;
    AheadOfEntries(ss);
    DialsIff(q, 0, found, text);
    var es := Ahead(q.file, 0);
    forall k | 0 <= k < |ss|
      ensures Hit(q, es[k].entry) <==> Wanted(ss[k], q.sysname, q.speed)
      ensures Taken(q, es[k].entry) <==> exists d: nat :: Offers(q, ss[k], d, false)
      ensures DeviceOf(q, es[k].entry).Some? && !Taken(q, es[k].entry) <==> exists d: nat :: Offers(q, ss[k], d, true)
      ensures forall d: nat | Offers(q, ss[k], d, true) :: DeviceIs(q, es[k].entry, d)
    {
      HitIsWanted(q, ss[k], es[k].entry);
    }
    forall k: nat, d: nat | Connects(q, ss, k, d)
      ensures StopsAt(q, es, k) && DeviceIs(q, es[k].entry, d)
      ensures DialsDevice(q, Choose(q, 0, found, text), d)
    {
      forall j | 0 <= j < k && Hit(q, es[..k][j].entry) ensures Taken(q, es[..k][j].entry) {
        assert es[..k][j] == es[j];
      }
      assert Offers(q, ss[k], d, true);
      StoppedDials(q, es[k].entry, es[k].pos, found + Hits(q, es[..k]) + 1, d);
    }
    if Choose(q, 0, found, text).Dial? {
      var k: nat :| StopsAt(q, es, k) && DeviceOf(q, es[k].entry).Some?;
      var d: nat :| Offers(q, ss[k], d, true);
      forall j | 0 <= j < k && Wanted(ss[j], q.sysname, q.speed) ensures exists e: nat :: Offers(q, ss[j], e, false) {
        assert es[..k][j] == es[j];
      }
      assert Connects(q, ss, k, d);
    }
  }

  predicate DialsDevice(q: Query, c: Choice, d: nat) {
    d < |q.devices| && c.Dial? && c.line == q.devices[d].line
  }

  lemma StoppedDials(q: Query, e: Entry, pos: nat, found: int, d: nat)
    requires DeviceIs(q, e, d)
    ensures DialsDevice(q, Stopped(q, e, pos, found), d)
  {
  }
}
