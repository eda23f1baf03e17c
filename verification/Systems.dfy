/** The Systems file of the dialer and the cursor over it (chapter18/sysfile.c). */
module Systems {
  import opened Text
  import opened Records

  const MAXLINE := 4096
  const TAB: byte := 9
  const HASH_SIGN: byte := 35

  type CStr = seq<byte>

  predicate IsWhite(b: byte) {
    b == SPACE || b == TAB || b == NEWLINE
  }

  /** The fields of a line that the server looks at. */
  datatype Entry = Entry(name: CStr, kind: CStr, class_: CStr)

  datatype Line = Skipped | Malformed | Parsed(entry: Entry)

  function SkipWhite(s: CStr): CStr {
    if |s| > 0 && IsWhite(s[0]) then SkipWhite(s[1..]) else s
  }

  function TokenLength(s: CStr): (n: nat)
    ensures n <= |s|
  {
    if |s| > 0 && !IsWhite(s[0]) then 1 + TokenLength(s[1..]) else 0
  }

  /** strtok with white space: the next token and what follows the separator after it. */
  function Token(s: CStr): Option<(CStr, CStr)> {
    var t := SkipWhite(s);
    if t == [] then None else
      var n := TokenLength(t);
      Some((t[..n], if n < |t| then t[n + 1..] else []))
  }

  /** strtok with a newline finds something: a byte that is not a newline. */
  predicate HasLogin(s: CStr) {
    exists i | 0 <= i < |s| :: s[i] != NEWLINE
  }

  /** One line, broken apart as sys_next does. */
  function ParseLine(text: seq<byte>): Line {
    var s := CutAtNul(text);
    match Token(s)
    case None => if |s| > 0 && s[0] == NEWLINE then Skipped else Malformed
    case Some((name, s1)) =>
      if |name| > 0 && name[0] == HASH_SIGN then Skipped
      else
        match Token(s1)
        case None => Malformed
        case Some((time, s2)) =>
          match Token(s2)
          case None => Malformed
          case Some((kind, s3)) =>
            match Token(s3)
            case None => Malformed
            case Some((class_, s4)) =>
              match Token(s4)
              case None => Malformed
              case Some((phone, s5)) =>
                if HasLogin(s5) then Parsed(Entry(name, kind, class_)) else Malformed
  }

  /** Where fgets leaves the file: after the next newline, or after MAXLINE - 1 bytes, or at the end. */
  function LineEnd(file: seq<byte>, pos: nat): (r: nat)
    requires pos < |file|
    ensures pos < r <= |file|
  {
    var n := IndexOf(file[pos..], NEWLINE) + 1;
    var m := if n > MAXLINE - 1 then MAXLINE - 1 else n;
    if pos + m > |file| then |file| else pos + m
  }

  datatype Next = AtEnd | Quit | Found(entry: Entry, pos: nat)

  /** What sys_next returns from a file position: the next entry and the position after it. */
  function SysNext(file: seq<byte>, pos: nat): (r: Next)
    ensures r.Found? ==> pos < r.pos <= |file|
    decreases |file| - pos
  {
    if pos >= |file| then AtEnd
    else
      var end := LineEnd(file, pos);
      match ParseLine(file[pos..end])
      case Skipped => SysNext(file, end)
      case Malformed => Quit
      case Parsed(entry) => Found(entry, end)
  }

  /** The entry is for this system, at this speed if one was asked for. */
  predicate Matches(e: Entry, sysname: CStr, speed: CStr) {
    e.name == sysname && (speed == [] || e.class_ == speed)
  }

  /** How many entries from pos on match, up to a malformed line if there is one. */
  function Remaining(file: seq<byte>, pos: nat, sysname: CStr, speed: CStr): nat
    decreases |file| - pos
  {
    match SysNext(file, pos)
    case AtEnd => 0
    case Quit => 0
    case Found(e, after) =>
      (if Matches(e, sysname, speed) then 1 else 0) + Remaining(file, after, sysname, speed)
  }

  /** The open Systems file and its cursor. */
  class SystemsFile {
    const file: seq<byte>
    var pos: nat

    constructor (file: seq<byte>)
      ensures this.file == file && pos == 0
    {
      this.file := file;
      pos := 0;
    }

    /** Reads lines until one is an entry; None at the end of the file, Fail on a malformed line. */
    method ReadNext() returns (r: Outcome<Option<Entry>>)
      modifies this
      ensures match SysNext(file, old(pos))
              case AtEnd => r == Done(None)
              case Quit => r == Fail
              case Found(e, after) => r == Done(Some(e)) && pos == after
    {
      while pos < |file|
        invariant SysNext(file, pos) == SysNext(file, old(pos))
        decreases |file| - pos
      {
        var end := LineEnd(file, pos);
        var line := ParseLine(file[pos..end]);
        pos := end;
        match line {
          case Skipped =>
          case Malformed => return Fail;
          case Parsed(e) => return Done(Some(e));
        }
      }
      return Done(None);
    }

    method Position(posn: nat)
      modifies this
      ensures pos == posn
    {
      pos := posn;
    }
  }
}
