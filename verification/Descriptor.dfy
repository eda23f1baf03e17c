/** Passing a descriptor or an error after any amount of text (proc_com_43pbds.c): the text, then a
    NUL and a status byte. */
module Descriptor {
  import opened Text
  import opened Records

  const MAXLINE := 4096

  /** The status byte of send_fd: 0 with a descriptor, otherwise -fd cut to a char, or 1 if the cut left 0. */
  function StatusByte(fd: int): byte {
    if fd >= 0 then 0
    else if (-fd) % 256 == 0 then 1
    else (-fd) % 256
  }

  function Terminator(fd: int): seq<byte> {
    [NUL, StatusByte(fd)]
  }

  /** What one recvmsg returns: at least one byte, and a descriptor if one came with these bytes. */
  datatype Segment = Segment(bytes: seq<byte>, fd: Option<int>)

  /** recv_fd returns a descriptor or negative status, or -1, or dies in err_dump. */
  datatype Received = Got(fd: int) | MinusOne | Dumped

  /** What recv_fd makes of one segment. */
  datatype Reading = Plain | Final(newfd: int) | Malformed

  function Read(seg: Segment): Reading {
    var i := IndexOf(seg.bytes, NUL);
    if i == |seg.bytes| then Plain
    else if i + 2 != |seg.bytes| then Malformed
    else if seg.bytes[i + 1] != 0 then Final(-(seg.bytes[i + 1] as int))
    else if seg.fd.None? then Malformed
    else Final(seg.fd.value)
  }

  /** The text in a segment, once the terminator is cut off. */
  function TextOf(seg: Segment): seq<byte> {
    if Read(seg).Final? && |seg.bytes| >= 2 then seg.bytes[..|seg.bytes| - 2] else seg.bytes
  }

  /** Everything recv_fd passes to its callback, and its result. The list ends where the server
      closes the connection. */
  function Receive(segs: seq<Segment>, user: seq<byte> -> int): (seq<seq<byte>>, Received) {
    if |segs| == 0 || segs[0].bytes == [] then ([], MinusOne)
    else
      var reading, text := Read(segs[0]), TextOf(segs[0]);
      if reading.Malformed? then ([], Dumped)
      else
        var calls := if text == [] then [] else [text];
        if text != [] && user(text) != |text| then (calls, MinusOne)
        else if reading.Final? then (calls, Got(reading.newfd))
        else
          var (more, r) := Receive(segs[1..], user);
          (calls + more, r)
  }

  /** The scan of one buffer: the pointer stops at the terminator or runs off the end. */
  method ScanBuffer(buf: seq<byte>, fd: Option<int>) returns (status: int, newfd: int, nread: nat, ok: bool)
    requires 0 < |buf| <= MAXLINE
    ensures ok <==> !Read(Segment(buf, fd)).Malformed?
    ensures ok ==> (status >= 0 <==> Read(Segment(buf, fd)).Final?)
    ensures ok && status >= 0 ==> Read(Segment(buf, fd)) == Final(newfd)
    ensures ok ==> nread <= |buf| && buf[..nread] == TextOf(Segment(buf, fd))
  {
    hide IndexOf;
    status, newfd, nread, ok := -1, 0, |buf|, true;
    var ptr := 0;
    while ptr < nread
      invariant ok && nread == |buf| - (if status >= 0 then 2 else 0)
      invariant status < 0 ==> ptr <= |buf| && NUL !in buf[..ptr]
      invariant status >= 0 ==> ptr == |buf| - 1 && Read(Segment(buf, fd)) == Final(newfd)
      decreases |buf| - ptr
    {
      ptr := ptr + 1;
      if buf[ptr - 1] == 0 {
        FirstNul(buf, ptr - 1);
        if ptr != nread - 1 {
          return status, newfd, nread, false;
        }
        status := buf[ptr];
        if status == 0 {
          if fd.None? {
            return status, newfd, nread, false;
          }
          newfd := fd.value;
        } else {
          newfd := -status;
        }
        nread := nread - 2;
      }
    }
    if status < 0 {
      assert buf[..ptr] == buf;
      IndexOfAbsent(buf, NUL);
    }
  }

  lemma FirstNul(buf: seq<byte>, i: nat)
    requires i < |buf| && buf[i] == NUL && NUL !in buf[..i]
    ensures IndexOf(buf, NUL) == i
  {
    assert buf == buf[..i] + [NUL] + buf[i + 1..];
    IndexOfFirst(buf[..i], NUL, buf[i + 1..]);
  }

  method RecvFd(segs: seq<Segment>, user: seq<byte> -> int) returns (delivered: seq<seq<byte>>, r: Received)
    requires forall seg | seg in segs :: |seg.bytes| <= MAXLINE
    ensures (delivered, r) == Receive(segs, user)
  {
    hide Read, TextOf, Receive, ReceivesOn;
    delivered := [];
    var n := 0;
    ReceiveBegins(segs, user);
    while true
      invariant n <= |segs| && ReceivesOn(segs, user, delivered, n)
      decreases |segs| - n
    {
      ReceiveStep(segs, user, delivered, n);
      if n == |segs| || segs[n].bytes == [] {
        return delivered, MinusOne;
      }
      var buf := segs[n].bytes;
      assert segs[n] == Segment(buf, segs[n].fd);
      var status, newfd, nread, ok := ScanBuffer(buf, segs[n].fd);
      if !ok {
        return delivered, Dumped;
      }
      if nread > 0 {
        delivered := delivered + [buf[..nread]];
        if user(buf[..nread]) != nread {
          return delivered, MinusOne;
        }
      }
      if status >= 0 {
        return delivered, Got(newfd);
      }
      n := n + 1;
    }
  }

  /** These calls, and what the segments from n on lead to, make up the whole. */
  ghost predicate ReceivesOn(segs: seq<Segment>, user: seq<byte> -> int, delivered: seq<seq<byte>>, n: nat) {
    && n <= |segs|
    && var rest := Receive(segs[n..], user);
    && Receive(segs, user) == (delivered + rest.0, rest.1)
  }

  lemma ReceiveBegins(segs: seq<Segment>, user: seq<byte> -> int)
    ensures ReceivesOn(segs, user, [], 0)
  {
    hide Receive;
    assert segs[0..] == segs && [] + Receive(segs, user).0 == Receive(segs, user).0;
  }

  /** What one segment adds. */
  lemma ReceiveStep(segs: seq<Segment>, user: seq<byte> -> int, delivered: seq<seq<byte>>, n: nat)
    requires ReceivesOn(segs, user, delivered, n)
    ensures n <= |segs|
    ensures n == |segs| || segs[n].bytes == [] ==> Receive(segs, user) == (delivered, MinusOne)
    ensures n < |segs| && segs[n].bytes != [] ==>
              var reading, text := Read(segs[n]), TextOf(segs[n]);
              var now := if text == [] then delivered else delivered + [text];
              if reading.Malformed? then Receive(segs, user) == (delivered, Dumped)
              else if text != [] && user(text) != |text| then Receive(segs, user) == (now, MinusOne)
              else if reading.Final? then Receive(segs, user) == (now, Got(reading.newfd))
              else ReceivesOn(segs, user, now, n + 1)
  {
    hide Read, TextOf;
    assert delivered + [] == delivered;
    if n < |segs| && segs[n].bytes != [] {
      var text, rest := TextOf(segs[n]), Receive(segs[n + 1..], user).0;
      assert segs[n..][0] == segs[n] && segs[n..][1..] == segs[n + 1..];
      assert delivered + ([text] + rest) == delivered + [text] + rest && [] + rest == rest;
    }
  }

  function Bytes(segs: seq<Segment>): seq<byte> {
    if |segs| == 0 then [] else segs[0].bytes + Bytes(segs[1..])
  }

  function Joined(pieces: seq<seq<byte>>): seq<byte> {
    if |pieces| == 0 then [] else pieces[0] + Joined(pieces[1..])
  }

  /** A segmentation of a stream that ends in send_fd's two bytes, as recvmsg delivers it: no empty
      reads, and the descriptor, if any, comes with the last bytes. */
  ghost predicate Delivers(segs: seq<Segment>, stream: seq<byte>, fd: int) {
    && Bytes(segs) == stream
    && |segs| > 0
    && (forall i | 0 <= i < |segs| :: segs[i].bytes != [])
    && (fd >= 0 ==> segs[|segs| - 1].fd == Some(fd))
  }

  /** What the caller of recv_fd should get for a value passed to send_fd. */
  function Expected(fd: int): int {
    if fd >= 0 then fd else -(StatusByte(fd) as int)
  }

  /** For any text without NUL and any segmentation: exactly the text reaches the callback, in
      order, and then the value is returned, unless a segment boundary falls between the two last
      bytes, in which case recv_fd dies. */
  lemma {:induction false} Framing(segs: seq<Segment>, text: seq<byte>, fd: int, user: seq<byte> -> int)
    requires CString(text) && Delivers(segs, text + Terminator(fd), fd)
    requires forall b: seq<byte> :: user(b) == |b|
    ensures |segs[|segs| - 1].bytes| >= 2 ==>
              Receive(segs, user).1 == Got(Expected(fd)) && Joined(Receive(segs, user).0) == text
    ensures |segs[|segs| - 1].bytes| < 2 ==> Receive(segs, user).1 == Dumped
    decreases |segs|
  {
    hide Read, TextOf;
    var b, rest := segs[0].bytes, segs[1..];
    var stream := text + Terminator(fd);
    assert stream == b + Bytes(rest);
    if |segs| == 1 {
      assert rest == [] && b == stream;
      LastSegment(segs[0], text, fd);
      assert Joined([text]) == text + Joined([text][1..]) == text;
      assert text == [] ==> Joined([]) == text;
    } else {
      BytesAtLeast(rest);
      CutStream(b, Bytes(rest), text, Terminator(fd));
      if |b| <= |text| {
        assert b == text[..|b|] && Bytes(rest) == text[|b|..] + Terminator(fd);
        assert rest[|rest| - 1] == segs[|segs| - 1];
        assert Delivers(rest, text[|b|..] + Terminator(fd), fd);
        Framing(rest, text[|b|..], fd, user);
        PlainSegment(segs[0]);
        assert text == b + text[|b|..];
        var calls := Receive(rest, user).0;
        assert ([b] + calls)[1..] == calls;
      } else {
        assert b == text + [NUL] && Bytes(rest) == [StatusByte(fd)];
        SplitTerminator(segs[0], text);
        OneByteLeft(rest);
      }
    }
  }

  lemma {:induction false} BytesAtLeast(segs: seq<Segment>)
    requires forall i | 0 <= i < |segs| :: segs[i].bytes != []
    ensures |Bytes(segs)| >= |segs|
  {
    if |segs| > 0 {
      BytesAtLeast(segs[1..]);
    }
  }

  /** Where a first piece of text and terminator can end. */
  lemma CutStream(b: seq<byte>, more: seq<byte>, text: seq<byte>, end: seq<byte>)
    requires b + more == text + end && |end| == 2
    ensures |b| <= |text| ==> b == text[..|b|] && more == text[|b|..] + end
    ensures |b| == |text| + 1 ==> b == text + end[..1] && more == end[1..]
  {
    assert b == (text + end)[..|b|] && more == (text + end)[|b|..];
  }

  lemma OneByteLeft(segs: seq<Segment>)
    requires |segs| > 0 && (forall i | 0 <= i < |segs| :: segs[i].bytes != []) && |Bytes(segs)| == 1
    ensures |segs[|segs| - 1].bytes| == 1
  {
    BytesAtLeast(segs);
  }

  lemma PlainSegment(seg: Segment)
    requires CString(seg.bytes)
    ensures Read(seg) == Plain && TextOf(seg) == seg.bytes
  {
    IndexOfAbsent(seg.bytes, NUL);
  }

  lemma LastSegment(seg: Segment, text: seq<byte>, fd: int)
    requires CString(text) && seg.bytes == text + Terminator(fd) && (fd >= 0 ==> seg.fd == Some(fd))
    ensures Read(seg) == Final(Expected(fd)) && TextOf(seg) == text
  {
    assert seg.bytes == text + [NUL] + [StatusByte(fd)];
    IndexOfFirst(text, NUL, [StatusByte(fd)]);
    assert seg.bytes[..|text|] == text;
  }

  lemma SplitTerminator(seg: Segment, text: seq<byte>)
    requires CString(text) && seg.bytes == text + [NUL]
    ensures Read(seg) == Malformed
  {
    assert seg.bytes == text + [NUL] + [];
    IndexOfFirst(text, NUL, []);
  }

  /** An error arrives as a value in -255..-1, and as itself exactly when it was in that range. */
  lemma ErrorsArrive(fd: int)
    requires fd < 0
    ensures -255 <= Expected(fd) <= -1
    ensures Expected(fd) == fd <==> -255 <= fd
  {
  }
}
