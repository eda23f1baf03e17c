/** The recogniser of "%%[ ... ]%%" messages in a printer's output (input.c), with the message
    buffer it fills (message.c). */
module Printer {
  import opened Text

  const EOF: byte := 4
  const PERCENT: byte := 37
  const LEFT: byte := 91
  const RIGHT: byte := 93
  const MBSIZE := 1024

  datatype ParseState = Normal | HadOnePercent | HadTwoPercent | InMessage | HadRightBracket | HadRightBracketAndPercent

  /** mail_char was called, or proc_msg was, for a message with this body. */
  datatype Event = Mail(c: byte) | Message(body: seq<byte>)

  /** What has been recognised so far; body is that of the message under way, or of the last one. */
  datatype Parser = Parser(state: ParseState, body: seq<byte>, events: seq<Event>)

  function Emit(p: Parser, text: seq<byte>): Parser {
    p.(state := Normal, events := p.events + seq(|text|, i requires 0 <= i < |text| => Mail(text[i])))
  }

  /** One character that is not an EOF. */
  function Step(p: Parser, c: byte): Parser {
    match p.state
    case Normal => if c == PERCENT then p.(state := HadOnePercent) else Emit(p, [c])
    case HadOnePercent => if c == PERCENT then p.(state := HadTwoPercent) else Emit(p, [PERCENT, c])
    case HadTwoPercent =>
      if c == LEFT then p.(state := InMessage, body := []) else Emit(p, [PERCENT, PERCENT, c])
    case InMessage => if c == RIGHT then p.(state := HadRightBracket) else p.(body := p.body + [c])
    case HadRightBracket =>
      if c == PERCENT then p.(state := HadRightBracketAndPercent)
      else p.(state := InMessage, body := p.body + [RIGHT, c])
    case HadRightBracketAndPercent =>
      if c == PERCENT then p.(state := Normal, events := p.events + [Message(p.body)])
      else p.(state := InMessage, body := p.body + [RIGHT, PERCENT, c])
  }

  /** A run of input; EOF characters are only counted. */
  function Feed(p: Parser, input: seq<byte>): Parser
    decreases input
  {
    if |input| == 0 then p
    else Feed(if input[0] == EOF then p else Step(p, input[0]), input[1..])
  }

  function WithoutEof(input: seq<byte>): seq<byte> {
    if |input| == 0 then []
    else (if input[0] == EOF then [] else [input[0]]) + WithoutEof(input[1..])
  }

  function CountEof(input: seq<byte>): nat {
    if |input| == 0 then 0 else (if input[0] == EOF then 1 else 0) + CountEof(input[1..])
  }

  /** The EOF characters are counted, and they and nothing else are left out. */
  lemma {:induction false} EofsCounted(input: seq<byte>)
    ensures CountEof(input) == multiset(input)[EOF]
    ensures multiset(WithoutEof(input)) == multiset(input)[EOF := 0]
    ensures EOF !in input ==> WithoutEof(input) == input
  {
    if |input| > 0 {
      EofsCounted(input[1..]);
      assert input == [input[0]] + input[1..];
    }
  }

  // ---- What a printer sends ----

  const OPENING: seq<byte> := [PERCENT, PERCENT, LEFT]
  const CLOSING: seq<byte> := [RIGHT, PERCENT, PERCENT]

  function EventText(e: Event): seq<byte> {
    if e.Mail? then [e.c] else OPENING + e.body + CLOSING
  }

  function Render(events: seq<Event>): seq<byte> {
    if |events| == 0 then [] else
      Render(events[..|events| - 1]) + EventText(events[|events| - 1])
  }

  /** The characters of a mail run or message that has not ended yet. */
  function Pending(p: Parser): seq<byte> {
    match p.state
    case Normal => []
    case HadOnePercent => [PERCENT]
    case HadTwoPercent => [PERCENT, PERCENT]
    case InMessage => OPENING + p.body
    case HadRightBracket => OPENING + p.body + [RIGHT]
    case HadRightBracketAndPercent => OPENING + p.body + [RIGHT, PERCENT]
  }

  function Sent(p: Parser): seq<byte> {
    Render(p.events) + Pending(p)
  }

  lemma RenderSnoc(events: seq<Event>, e: Event)
    ensures Render(events + [e]) == Render(events) + EventText(e)
  {
    assert (events + [e])[..|events|] == events;
  }

  lemma {:induction false} RenderConcat(a: seq<Event>, b: seq<Event>)
    ensures Render(a + b) == Render(a) + Render(b)
  {
    hide EventText;
    if |b| == 0 {
      assert a + b == a;
    } else {
      var n := |b| - 1;
      RenderConcat(a, b[..n]);
      RenderSnoc(a + b[..n], b[n]);
      assert a + b == (a + b[..n]) + [b[n]];
      assert Render(b) == Render(b[..n]) + EventText(b[n]);
      Associative(Render(a), Render(b[..n]), EventText(b[n]));
    }
  }

  lemma Associative(x: seq<byte>, y: seq<byte>, z: seq<byte>)
    ensures x + y + z == x + (y + z)
  {
  }

  lemma EmitSends(p: Parser, text: seq<byte>)
    requires |text| <= 3
    ensures Sent(Emit(p, text)) == Render(p.events) + text
  {
    var mails := seq(|text|, i requires 0 <= i < |text| => Mail(text[i]));
    RenderConcat(p.events, mails);
    RenderMails(text);
  }

  lemma {:induction false} RenderMails(text: seq<byte>)
    ensures Render(seq(|text|, i requires 0 <= i < |text| => Mail(text[i]))) == text
  {
    if |text| > 0 {
      var n := |text| - 1;
      RenderMails(text[..n]);
      assert seq(|text|, i requires 0 <= i < |text| => Mail(text[i]))[..n]
               == seq(n, i requires 0 <= i < n => Mail(text[..n][i]));
      assert text == text[..n] + [text[n]];
    }
  }

  /** A character is never lost: it is mailed, kept in a body, or pending. */
  lemma StepSends(p: Parser, c: byte)
    ensures Sent(Step(p, c)) == Sent(p) + [c]
  {
    hide Render, Emit;
    match p.state
    case Normal => if c != PERCENT { EmitSends(p, [c]); }
    case HadOnePercent => if c != PERCENT { EmitSends(p, [PERCENT, c]); }
    case HadTwoPercent => if c != LEFT { EmitSends(p, [PERCENT, PERCENT, c]); }
    case InMessage =>
    case HadRightBracket =>
    case HadRightBracketAndPercent => if c == PERCENT { RenderSnoc(p.events, Message(p.body)); }
  }

  /** For every input: what was recognised, rendered again, followed by what is pending, is exactly
      the input without its EOF characters. */
  lemma {:induction false} Lossless(p: Parser, input: seq<byte>)
    ensures Sent(Feed(p, input)) == Sent(p) + WithoutEof(input)
    decreases input
  {
    hide Sent, Step;
    if |input| > 0 {
      var q := if input[0] == EOF then p else Step(p, input[0]);
      StepSends(p, input[0]);
      Lossless(q, input[1..]);
    }
  }

  lemma FeedOne(p: Parser, c: byte)
    ensures Feed(p, [c]) == if c == EOF then p else Step(p, c)
    ensures CountEof([c]) == if c == EOF then 1 else 0
  {
    hide Step;
    assert [c][1..] == [];
  }

  /** How the input is cut into pieces makes no difference. */
  lemma {:induction false} FeedConcat(p: Parser, a: seq<byte>, b: seq<byte>)
    ensures Feed(p, a + b) == Feed(Feed(p, a), b)
    ensures CountEof(a + b) == CountEof(a) + CountEof(b)
    decreases a
  {
    hide Step;
    if |a| == 0 {
      assert a + b == b;
    } else {
      assert (a + b)[1..] == a[1..] + b;
      FeedConcat(if a[0] == EOF then p else Step(p, a[0]), a[1..], b);
    }
  }

  // ---- Undoing the printer ----

  /** How many percents are held back after mailed text, when n were before its last character. */
  function NextHeld(n: nat, c: byte): nat {
    if n < 2 && c == PERCENT then n + 1 else 0
  }

  /** How much of a closing is held back after text of a body. */
  function NextTail(n: nat, c: byte): nat {
    if n == 0 && c == RIGHT then 1 else if n == 1 && c == PERCENT then 2 else 0
  }

  /** The body has no EOF, does not complete a closing, and does not end inside one. */
  predicate BodyKept(body: seq<byte>, n: nat) {
    if |body| == 0 then n == 0
    else body[0] != EOF && !(n == 2 && body[0] == PERCENT) && BodyKept(body[1..], NextTail(n, body[0]))
  }

  /** With n percents of mailed text held back: no EOF is mailed, no mailed text completes an
      opening, none is held back at a message or at the end, and every body is kept. */
  predicate Undoable(events: seq<Event>, n: nat) {
    if |events| == 0 then n == 0
    else
      match events[0]
      case Mail(c) => c != EOF && !(n == 2 && c == LEFT) && Undoable(events[1..], NextHeld(n, c))
      case Message(body) => n == 0 && BodyKept(body, 0) && Undoable(events[1..], 0)
  }

  function HeldState(n: nat): ParseState {
    if n == 0 then Normal else if n == 1 then HadOnePercent else HadTwoPercent
  }

  function TailState(n: nat): ParseState {
    if n == 0 then InMessage else if n == 1 then HadRightBracket else HadRightBracketAndPercent
  }

  function HeldEvents(n: nat): seq<Event> {
    seq(n, _ => Mail(PERCENT))
  }

  function Tail(n: nat): seq<byte> {
    if n == 0 then [] else if n == 1 then [RIGHT] else [RIGHT, PERCENT]
  }

  predicate InBody(p: Parser) {
    p.state.InMessage? || p.state.HadRightBracket? || p.state.HadRightBracketAndPercent?
  }

  predicate Clean(e: Event) {
    if e.Mail? then e.c != EOF else EOF !in e.body
  }

  lemma StepGrows(p: Parser, c: byte)
    ensures p.events <= Step(p, c).events
    ensures InBody(p) ==>
              if Step(p, c).events == p.events then InBody(Step(p, c)) && p.body <= Step(p, c).body
              else Step(p, c).events == p.events + [Message(p.body)]
    ensures c != EOF && (InBody(p) ==> EOF !in p.body) ==>
              && (InBody(Step(p, c)) ==> EOF !in Step(p, c).body)
              && forall i | |p.events| <= i < |Step(p, c).events| :: Clean(Step(p, c).events[i])
  {
  }

  lemma {:induction false} EventsGrow(p: Parser, s: seq<byte>)
    ensures p.events <= Feed(p, s).events
    decreases s
  {
    hide Step;
    if |s| > 0 {
      StepGrows(p, s[0]);
      EventsGrow(if s[0] == EOF then p else Step(p, s[0]), s[1..]);
    }
  }

  /** Inside a message, the next event can only be that message, with the body so far as its start. */
  lemma {:induction false} NextIsMessage(p: Parser, s: seq<byte>)
    requires InBody(p)
    ensures var q := Feed(p, s);
            |q.events| > |p.events| ==> q.events[|p.events|].Message? && p.body <= q.events[|p.events|].body
    decreases s
  {
    hide Step, InBody;
    if |s| > 0 {
      StepGrows(p, s[0]);
      var p1 := if s[0] == EOF then p else Step(p, s[0]);
      EventsGrow(p1, s[1..]);
      if p1.events == p.events {
        NextIsMessage(p1, s[1..]);
      }
    }
  }

  /** No event ever holds an EOF. */
  lemma {:induction false} NewEventsClean(p: Parser, s: seq<byte>)
    requires InBody(p) ==> EOF !in p.body
    ensures var q := Feed(p, s); forall i | |p.events| <= i < |q.events| :: Clean(q.events[i])
    decreases s
  {
    hide Step, InBody, Clean;
    if |s| > 0 {
      StepGrows(p, s[0]);
      var p1 := if s[0] == EOF then p else Step(p, s[0]);
      EventsGrow(p1, s[1..]);
      NewEventsClean(p1, s[1..]);
      var q := Feed(p, s);
      forall i | |p.events| <= i < |q.events| ensures Clean(q.events[i]) {
        if i < |p1.events| {
          assert q.events[i] == p1.events[i];
        }
      }
    }
  }

  lemma FeedCons(p: Parser, c: byte, s: seq<byte>)
    ensures Feed(p, [c] + s) == Feed(if c == EOF then p else Step(p, c), s)
  {
    hide Step;
    assert ([c] + s)[1..] == s;
  }

  lemma Feed3(p: Parser, a: byte, b: byte, c: byte, s: seq<byte>)
    requires EOF != a && EOF != b && EOF != c
    ensures Feed(p, [a, b, c] + s) == Feed(Step(Step(Step(p, a), b), c), s)
  {
    hide Step, Feed;
    assert [a, b, c] + s == [a] + ([b] + ([c] + s));
    FeedCons(p, a, [b] + ([c] + s));
    FeedCons(Step(p, a), b, [c] + s);
    FeedCons(Step(Step(p, a), b), c, s);
  }

  lemma StepTail(p: Parser, n: nat, c: byte)
    requires n <= 2 && p.state == TailState(n) && !(n == 2 && c == PERCENT)
    ensures Step(p, c).state == TailState(NextTail(n, c)) && Step(p, c).events == p.events
    ensures Step(p, c).body + Tail(NextTail(n, c)) == p.body + Tail(n) + [c]
  {
  }

  lemma StepClosing(p: Parser, n: nat)
    requires n <= 2 && p.state == TailState(n)
    ensures var q := Step(Step(Step(p, RIGHT), PERCENT), PERCENT);
            if n == 0 then q == p.(state := Normal, events := p.events + [Message(p.body)])
            else q.state.InMessage? && q.events == p.events && |q.body| > |p.body + Tail(n)|
  {
  }

  /** A kept body is taken in whole and completed by its closing; any other never yields its message. */
  lemma {:induction false} FeedBody(p: Parser, body: seq<byte>, n: nat, more: seq<byte>)
    requires n <= 2 && p.state == TailState(n) && EOF !in p.body
    ensures var q, whole := Feed(p, body + (CLOSING + more)), p.body + Tail(n) + body;
            if BodyKept(body, n) then q == Feed(Parser(Normal, whole, p.events + [Message(whole)]), more)
            else |q.events| > |p.events| ==> q.events[|p.events|] != Message(whole)
    decreases body
  {
    hide Step, Feed;
    var whole := p.body + Tail(n) + body;
    var s := CLOSING + more;
    if |body| == 0 {
      assert body + s == s && whole == p.body + Tail(n);
      Feed3(p, RIGHT, PERCENT, PERCENT, more);
      StepClosing(p, n);
      var r := Step(Step(Step(p, RIGHT), PERCENT), PERCENT);
      if n > 0 {
        NextIsMessage(r, more);
      } else {
        assert whole == p.body;
      }
    } else {
      var c, rest := body[0], body[1..];
      assert body + s == [c] + (rest + s);
      FeedCons(p, c, rest + s);
      if c == EOF {
        NewEventsClean(p, rest + s);
        assert body[0] in whole;
      } else if n == 2 && c == PERCENT {
        StepCloses(p);
        EventsGrow(Step(p, c), rest + s);
      } else {
        StepTail(p, n, c);
        StepGrows(p, c);
        assert p.body + Tail(n) + [c] + rest == whole;
        FeedBody(Step(p, c), rest, NextTail(n, c), more);
      }
    }
  }

  lemma StepCloses(p: Parser)
    requires p.state.HadRightBracketAndPercent?
    ensures Step(p, PERCENT).events == p.events + [Message(p.body)]
  {
  }

  lemma StepHeld(p: Parser, n: nat, c: byte)
    requires n <= 2 && p.state == HeldState(n) && !(n == 2 && c == LEFT)
    ensures Step(p, c).state == HeldState(NextHeld(n, c))
    ensures Step(p, c).events + HeldEvents(NextHeld(n, c)) == p.events + HeldEvents(n) + [Mail(c)]
  {
  }

  /** An opening is one only when nothing is held back; otherwise its first percent is mailed. */
  lemma StepOpening(p: Parser, n: nat)
    requires n <= 2 && p.state == HeldState(n)
    ensures var q := Step(Step(Step(p, PERCENT), PERCENT), LEFT);
            if n == 0 then q == p.(state := InMessage, body := [])
            else |q.events| > |p.events| + n && q.events[|p.events| + n] == Mail(PERCENT)
  {
  }

  lemma RenderCons(events: seq<Event>)
    requires |events| > 0
    ensures Render(events) == EventText(events[0]) + Render(events[1..])
  {
    hide Render, EventText;
    assert events == [events[0]] + events[1..];
    RenderConcat([events[0]], events[1..]);
    RenderOne(events[0]);
  }

  lemma RenderOne(e: Event)
    ensures Render([e]) == EventText(e)
  {
    hide EventText;
    RenderSnoc([], e);
    assert [] + [e] == [e];
    RenderNone();
    assert [] + EventText(e) == EventText(e);
  }

  /** The events come back, and nothing is left pending, after the n percents held back so far. */
  ghost predicate Undone(p: Parser, n: nat, events: seq<Event>, q: Parser) {
    q.state.Normal? && q.events == p.events + HeldEvents(n) + events
  }

  lemma {:induction false} UndoesFrom(p: Parser, events: seq<Event>, n: nat)
    requires n <= 2 && p.state == HeldState(n)
    ensures Undone(p, n, events, Feed(p, Render(events))) <==> Undoable(events, n)
    decreases events
  {
    hide Step, Render, BodyKept;
    if |events| == 0 {
      RenderNone();
      assert p.events + HeldEvents(0) + [] == p.events;
    } else {
      RenderCons(events);
      if events[0].Mail? {
        UndoesMail(p, events, n);
      } else {
        UndoesMessage(p, events, n);
      }
    }
  }

  lemma RenderNone()
    ensures Render([]) == []
  {
  }

  lemma {:induction false} UndoesMail(p: Parser, events: seq<Event>, n: nat)
    requires n <= 2 && p.state == HeldState(n) && |events| > 0 && events[0].Mail?
    requires Render(events) == EventText(events[0]) + Render(events[1..])
    ensures Undone(p, n, events, Feed(p, Render(events))) <==> Undoable(events, n)
    decreases events, 0
  {
    hide Step, Feed, Render, BodyKept;
    var c, rest := events[0].c, events[1..];
    var text := Render(rest);
    var q := Feed(p, [c] + text);
    FeedCons(p, c, text);
    assert q.events == p.events + HeldEvents(n) + events ==>
             |q.events| > |p.events| + n && q.events[|p.events| + n] == events[0];
    if c == EOF {
      NewEventsClean(p, text);
    } else if n == 2 && c == LEFT {
      StepOpens(p);
      NextIsMessage(Step(p, c), text);
      FirstHeld(p.events, events);
    } else {
      StepHeld(p, n, c);
      assert events == [events[0]] + rest;
      assert p.events + HeldEvents(n) + events == p.events + HeldEvents(n) + [events[0]] + rest;
      UndoesFrom(Step(p, c), rest, NextHeld(n, c));
    }
  }

  lemma FirstHeld(before: seq<Event>, events: seq<Event>)
    ensures |before + HeldEvents(2) + events| > |before| && (before + HeldEvents(2) + events)[|before|] == Mail(PERCENT)
  {
  }

  lemma StepOpens(p: Parser)
    requires p.state.HadTwoPercent?
    ensures Step(p, LEFT).state.InMessage? && Step(p, LEFT).events == p.events
  {
  }

  /** With percents held back, the next message cannot come out in its place. */
  lemma OpenedLate(p: Parser, n: nat, events: seq<Event>, q: Parser)
    requires 0 < |events| && events[0].Message? && |q.events| > |p.events| + n
             && q.events[|p.events| + n] == Mail(PERCENT)
    ensures !Undone(p, n, events, q)
  {
    EventAt(p.events, n, events);
  }

  lemma EventAt(before: seq<Event>, n: nat, events: seq<Event>)
    requires 0 < |events|
    ensures (before + HeldEvents(n) + events)[|before| + n] == events[0]
  {
  }

  /** A message that came out in its place leaves the rest to come out. */
  lemma MessageBack(p: Parser, events: seq<Event>, after: Parser, q: Parser)
    requires 0 < |events| && after.events == p.events + [events[0]]
    ensures Undone(after, 0, events[1..], q) <==> Undone(p, 0, events, q)
  {
    assert p.events + [events[0]] + HeldEvents(0) + events[1..] == p.events + HeldEvents(0) + events;
  }

  lemma NoMessageBack(p: Parser, events: seq<Event>, q: Parser)
    requires 0 < |events|
    requires |q.events| > |p.events| ==> q.events[|p.events|] != events[0]
    ensures !Undone(p, 0, events, q)
  {
    EventAt(p.events, 0, events);
  }

  lemma {:induction false} UndoesMessage(p: Parser, events: seq<Event>, n: nat)
    requires n <= 2 && p.state == HeldState(n) && |events| > 0 && events[0].Message?
    requires Render(events) == EventText(events[0]) + Render(events[1..])
    ensures Undone(p, n, events, Feed(p, Render(events))) <==> Undoable(events, n)
    decreases events, 0
  {
    hide Step, Feed, Render, BodyKept, Undone;
    var body, rest := events[0].body, events[1..];
    var text := body + (CLOSING + Render(rest));
    var q := Feed(p, Render(events));
    assert Render(events) == OPENING + text;
    Feed3(p, PERCENT, PERCENT, LEFT, text);
    StepOpening(p, n);
    var r := Step(Step(Step(p, PERCENT), PERCENT), LEFT);
    if n > 0 {
      EventsGrow(r, text);
      OpenedLate(p, n, events, q);
    } else {
      FeedBody(r, body, 0, Render(rest));
      assert [] + Tail(0) + body == body;
      if BodyKept(body, 0) {
        var after := Parser(Normal, body, p.events + [Message(body)]);
        UndoesFrom(after, rest, 0);
        MessageBack(p, events, after, q);
      } else {
        NoMessageBack(p, events, q);
      }
    }
  }

  /** Feeding the rendering of some events gives back exactly those events, and ends outside any
      message, if and only if none of them runs into the markers. */
  lemma Undoes(p: Parser, events: seq<Event>)
    requires p.state.Normal?
    ensures var q := Feed(p, Render(events));
            (q.events == p.events + events && q.state.Normal?) <==> Undoable(events, 0)
  {
    hide Feed, Render, Undoable;
    UndoesFrom(p, events, 0);
    assert p.events + HeldEvents(0) == p.events;
  }

  /** In particular mail without percents and bodies without right brackets always come back. */
  lemma {:induction false} PlainIsUndoable(events: seq<Event>)
    requires forall i | 0 <= i < |events| ::
               if events[i].Mail? then events[i].c != PERCENT && events[i].c != EOF
               else RIGHT !in events[i].body && EOF !in events[i].body
    ensures Undoable(events, 0)
  {
    if |events| > 0 {
      if events[0].Message? {
        PlainIsKept(events[0].body);
      }
      PlainIsUndoable(events[1..]);
    }
  }

  lemma {:induction false} PlainIsKept(body: seq<byte>)
    requires RIGHT !in body && EOF !in body
    ensures BodyKept(body, 0)
  {
    if |body| > 0 {
      PlainIsKept(body[1..]);
    }
  }

  /** A percent mailed just before a message loses the message, and a message that ends in its only
      right bracket never ends; but one that ends in two of them does. */
  lemma Losses(p: Parser, body: seq<byte>)
    requires p.state.Normal? && RIGHT !in body && EOF !in body
    ensures var q := Feed(p, Render([Mail(PERCENT), Message(body)]));
            !(q.events == p.events + [Mail(PERCENT), Message(body)] && q.state.Normal?)
    ensures var q := Feed(p, Render([Message(body + [RIGHT])]));
            !(q.events == p.events + [Message(body + [RIGHT])] && q.state.Normal?)
    ensures var q := Feed(p, Render([Message(body + [RIGHT, RIGHT])]));
            q.events == p.events + [Message(body + [RIGHT, RIGHT])] && q.state.Normal?
  {
    hide Feed, Render;
    var a, b, c := [Mail(PERCENT), Message(body)], [Message(body + [RIGHT])], [Message(body + [RIGHT, RIGHT])];
    assert a[1..] == [Message(body)] && b[1..] == [] && c[1..] == [];
    EndsInBrackets(body);
    Undoes(p, a);
    Undoes(p, b);
    Undoes(p, c);
  }

  lemma {:induction false} EndsInBrackets(body: seq<byte>)
    requires RIGHT !in body && EOF !in body
    ensures !BodyKept(body + [RIGHT], 0) && BodyKept(body + [RIGHT, RIGHT], 0)
  {
    if |body| > 0 {
      assert (body + [RIGHT])[1..] == body[1..] + [RIGHT];
      assert (body + [RIGHT, RIGHT])[1..] == body[1..] + [RIGHT, RIGHT];
      EndsInBrackets(body[1..]);
    } else {
      assert body + [RIGHT] == [RIGHT] && body + [RIGHT, RIGHT] == [RIGHT, RIGHT];
      assert [RIGHT][1..] == [] && [RIGHT, RIGHT][1..] == [RIGHT];
    }
  }

  /** No recogniser could undo all printing: a message and mailed text can render alike. */
  lemma MarkersAreAmbiguous(body: seq<byte>)
    ensures var text := OPENING + body + CLOSING;
            var mails := seq(|text|, i requires 0 <= i < |text| => Mail(text[i]));
            Render([Message(body)]) == Render(mails) && mails != [Message(body)]
  {
    var text := OPENING + body + CLOSING;
    RenderMails(text);
    RenderSnoc([], Message(body));
    assert [] + [Message(body)] == [Message(body)];
  }

  // ---- The message buffer ----

  function NonNul(s: seq<byte>): seq<byte> {
    if |s| == 0 then []
    else NonNul(s[..|s| - 1]) + (if s[|s| - 1] == NUL then [] else [s[|s| - 1]])
  }

  function Clip(s: seq<byte>): seq<byte> {
    if |s| < MBSIZE then s else s[..MBSIZE - 1]
  }

  /** What the buffer holds of a body: its first 1023 bytes that are not NUL. */
  function Buffered(body: seq<byte>): (b: seq<byte>)
    ensures |b| < MBSIZE && CString(b)
  {
    NonNulIsCString(body);
    Clip(NonNul(body))
  }

  lemma {:induction false} NonNulIsCString(s: seq<byte>)
    ensures CString(NonNul(s))
  {
    if |s| > 0 {
      NonNulIsCString(s[..|s| - 1]);
    }
  }

  /** Leaving out the NULs keeps everything else as it is and where it is. */
  lemma {:induction false} NonNulKeeps(s: seq<byte>)
    requires CString(s)
    ensures NonNul(s) == s
  {
    if |s| > 0 {
      NonNulKeeps(s[..|s| - 1]);
    }
  }

  lemma {:induction false} NonNulConcat(a: seq<byte>, b: seq<byte>)
    ensures NonNul(a + b) == NonNul(a) + NonNul(b)
    ensures NonNul([NUL]) == []
  {
    assert [NUL][..0] == [];
    if |b| == 0 {
      assert a + b == a;
    } else {
      NonNulConcat(a, b[..|b| - 1]);
      assert (a + b)[..|a + b| - 1] == a + b[..|b| - 1];
    }
  }

  /** A body without NULs that fits is buffered unchanged, and of one that does not the first 1023
      bytes are; NULs anywhere in it make no difference. */
  lemma BufferedMeans(a: seq<byte>, b: seq<byte>)
    requires CString(a)
    ensures Buffered(a) == if |a| < MBSIZE then a else a[..MBSIZE - 1]
    ensures forall c :: Buffered(c + [NUL] + b) == Buffered(c + b)
  {
    NonNulKeeps(a);
    forall c ensures NonNul(c + [NUL] + b) == NonNul(c + b) {
      NonNulConcat(c + [NUL], b);
      NonNulConcat(c, [NUL]);
      NonNulConcat(c, b);
      assert NonNul(c) + [] == NonNul(c);
    }
  }

  /** A call out of the recogniser: a mailed character, or a message as it stands in the buffer. */
  datatype Call = MailChar(c: byte) | ProcMsg(text: seq<byte>)

  function CallOf(e: Event): Call {
    if e.Mail? then MailChar(e.c) else ProcMsg(Buffered(e.body))
  }

  function Calls(events: seq<Event>): seq<Call> {
    seq(|events|, i requires 0 <= i < |events| => CallOf(events[i]))
  }

  /** A message that arrives whole is handed over as it was sent, if it is a C string that fits. */
  lemma MessageHandedOver(p: Parser, body: seq<byte>)
    requires p.state.Normal? && BodyKept(body, 0) && CString(body) && |body| < MBSIZE
    ensures var q := Feed(p, OPENING + body + CLOSING);
            q.state.Normal? && Calls(q.events) == Calls(p.events) + [ProcMsg(body)]
  {
    hide Feed, Render, BodyKept, Buffered;
    var events := [Message(body)];
    assert events[1..] == [];
    RenderOne(events[0]);
    Undoes(p, events);
    BufferedMeans(body, []);
  }

  class Input {
    var eofCount: nat
    var ignoreInput: bool
    var parseState: ParseState
    const msgbuf: array<byte>
    var msgcnt: nat
    var calls: seq<Call>
    ghost var parser: Parser

    ghost predicate Valid()
      reads this, msgbuf
    {
      && msgbuf.Length == MBSIZE
      && parser.state == parseState
      && msgcnt < MBSIZE && msgbuf[..msgcnt] == Buffered(parser.body)
      && calls == Calls(parser.events)
    }

    constructor ()
      ensures Valid() && fresh(msgbuf) && eofCount == 0 && !ignoreInput && parser == Parser(Normal, [], [])
    {
      eofCount, ignoreInput, parseState, msgcnt, calls := 0, false, Normal, 0, [];
      msgbuf := new byte[MBSIZE];
      parser := Parser(Normal, [], []);
    }

    method InitInput()
      requires Valid()
      modifies this
      ensures Valid() && !ignoreInput && eofCount == old(eofCount) && parser == old(parser).(state := Normal)
    {
      parseState := Normal;
      ignoreInput := false;
      parser := parser.(state := Normal);
    }

    method MsgInit()
      requires Valid()
      modifies `msgcnt, `parser
      ensures Valid() && parser == old(parser).(body := [])
    {
      msgcnt := 0;
      parser := parser.(body := []);
    }

    method MsgChar(c: byte)
      requires Valid()
      modifies `msgcnt, `parser, msgbuf
      ensures Valid() && parser == old(parser).(body := old(parser).body + [c])
    {
      ghost var body := parser.body;
      assert (body + [c])[..|body|] == body;
      if c != NUL && msgcnt < MBSIZE - 1 {
        msgbuf[msgcnt] := c;
        msgcnt := msgcnt + 1;
        assert msgbuf[..msgcnt] == old(msgbuf[..msgcnt]) + [c];
      }
      parser := parser.(body := body + [c]);
    }

    method MailCharCall(c: byte)
      requires Valid()
      modifies `calls, `parser
      ensures Valid() && parser == old(parser).(events := old(parser).events + [Mail(c)])
    {
      calls := calls + [MailChar(c)];
      parser := parser.(events := parser.events + [Mail(c)]);
    }

    method ProcMsgCall()
      requires Valid()
      modifies `calls, `parser
      ensures Valid() && parser == old(parser).(events := old(parser).events + [Message(old(parser).body)])
    {
      calls := calls + [ProcMsg(msgbuf[..msgcnt])];
      parser := parser.(events := parser.events + [Message(parser.body)]);
    }

    method SetState(s: ParseState)
      requires Valid()
      modifies `parseState, `parser
      ensures Valid() && parser == old(parser).(state := s)
    {
      parseState := s;
      parser := parser.(state := s);
    }

    method ProcInputChar(c: byte)
      requires Valid()
      modifies `eofCount, `parseState, `msgcnt, `calls, `parser, msgbuf
      ensures Valid()
      ensures eofCount == old(eofCount) + CountEof([c])
      ensures parser == if ignoreInput then old(parser) else Feed(old(parser), [c])
    {
      hide Calls, Buffered;
      FeedOne(parser, c);
      if c == EOF {
        eofCount := eofCount + 1;
        return;
      } else if ignoreInput {
        return;
      }
      match parseState {
        case Normal =>
          if c == PERCENT {
            SetState(HadOnePercent);
          } else {
            MailCharCall(c);
          }
        case HadOnePercent =>
          if c == PERCENT {
            SetState(HadTwoPercent);
          } else {
            MailCharCall(PERCENT);
            MailCharCall(c);
            SetState(Normal);
          }
        case HadTwoPercent =>
          if c == LEFT {
            MsgInit();
            SetState(InMessage);
          } else {
            MailCharCall(PERCENT);
            MailCharCall(PERCENT);
            MailCharCall(c);
            SetState(Normal);
          }
        case InMessage =>
          if c == RIGHT {
            SetState(HadRightBracket);
          } else {
            MsgChar(c);
          }
        case HadRightBracket =>
          if c == PERCENT {
            SetState(HadRightBracketAndPercent);
          } else {
            MsgChar(RIGHT);
            MsgChar(c);
            SetState(InMessage);
          }
        case HadRightBracketAndPercent =>
          if c == PERCENT {
            SetState(Normal);
            ProcMsgCall();
          } else {
            MsgChar(RIGHT);
            MsgChar(PERCENT);
            MsgChar(c);
            SetState(InMessage);
          }
      }
    }

    /** One read of the printer's output, in whatever piece it arrived. */
    method ProcSomeInput(ibuf: seq<byte>)
      requires Valid()
      modifies `eofCount, `parseState, `msgcnt, `calls, `parser, msgbuf
      ensures Valid()
      ensures eofCount == old(eofCount) + CountEof(ibuf)
      ensures parser == if ignoreInput then old(parser) else Feed(old(parser), ibuf)
    {
      hide Buffered, Calls, Step;
      var i := 0;
      while i < |ibuf|
        invariant i <= |ibuf| && Valid()
        invariant eofCount == old(eofCount) + CountEof(ibuf[..i])
        invariant parser == if ignoreInput then old(parser) else Feed(old(parser), ibuf[..i])
      {
        assert ibuf[..i + 1] == ibuf[..i] + [ibuf[i]];
        FeedConcat(old(parser), ibuf[..i], [ibuf[i]]);
        ProcInputChar(ibuf[i]);
        i := i + 1;
      }
      assert ibuf[..i] == ibuf;
    }

    /** Reads pieces of input until one brings an EOF, and takes in all of that piece. arrivals is
        what the printer will send; with no EOF in it the call is still waiting at its end. */
    method ProcUptoEof(ignore: bool, arrivals: seq<seq<byte>>) returns (n: nat)
      requires Valid()
      modifies `eofCount, `ignoreInput, `parseState, `msgcnt, `calls, `parser, msgbuf
      ensures Valid() && ignoreInput == ignore && n <= |arrivals|
      ensures forall i | 0 <= i < n - 1 :: EOF !in arrivals[i]
      ensures n < |arrivals| ==> n > 0 && EOF in arrivals[n - 1]
      ensures eofCount == old(eofCount) + CountEof(Joined(arrivals[..n]))
      ensures parser == if ignore then old(parser) else Feed(old(parser), Joined(arrivals[..n]))
    {
      hide Buffered, Calls, Step;
      ignoreInput := ignore;
      var ec := eofCount;
      n := 0;
      while ec == eofCount && n < |arrivals|
        invariant n <= |arrivals| && Valid() && ignoreInput == ignore
        invariant forall i | 0 <= i < n - 1 :: EOF !in arrivals[i]
        invariant n > 0 ==> (EOF in arrivals[n - 1] <==> ec != eofCount)
        invariant n == 0 ==> ec == eofCount
        invariant ec == old(eofCount) && eofCount == ec + CountEof(Joined(arrivals[..n]))
        invariant parser == if ignore then old(parser) else Feed(old(parser), Joined(arrivals[..n]))
        decreases |arrivals| - n
      {
        assert arrivals[..n + 1][..n] == arrivals[..n];
        FeedConcat(old(parser), Joined(arrivals[..n]), arrivals[n]);
        NoEofCounted(arrivals[n]);
        ProcSomeInput(arrivals[n]);
        n := n + 1;
      }
    }
  }

  function Joined(pieces: seq<seq<byte>>): seq<byte> {
    if |pieces| == 0 then [] else Joined(pieces[..|pieces| - 1]) + pieces[|pieces| - 1]
  }

  lemma {:induction false} NoEofCounted(input: seq<byte>)
    ensures CountEof(input) == 0 <==> EOF !in input
  {
    if |input| > 0 {
      NoEofCounted(input[1..]);
    }
  }

  /** Taking pieces in one after the other. */
  function FeedAll(p: Parser, pieces: seq<seq<byte>>): Parser {
    if |pieces| == 0 then p else Feed(FeedAll(p, pieces[..|pieces| - 1]), pieces[|pieces| - 1])
  }

  /** Any stream, cut in any way: the pieces taken in one by one lose nothing, and amount to the
      whole stream. */
  lemma {:induction false} LosslessInPieces(p: Parser, pieces: seq<seq<byte>>)
    ensures FeedAll(p, pieces) == Feed(p, Joined(pieces))
    ensures Sent(FeedAll(p, pieces)) == Sent(p) + WithoutEof(Joined(pieces))
  {
    hide Sent, Step;
    Lossless(p, Joined(pieces));
    if |pieces| > 0 {
      var n := |pieces| - 1;
      LosslessInPieces(p, pieces[..n]);
      FeedConcat(p, Joined(pieces[..n]), pieces[n]);
    }
  }
}
