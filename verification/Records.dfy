/** The text of the index file: chain-pointer fields and index records (db.h, db.c:217-303, 438-502). */
module Records {
  import opened Text

  const SEP: byte := 58
  const PTR_SZ := 6
  const PTR_MAX := 999999
  const IDXLEN_SZ := 4
  const IDXLEN_MIN := 6
  const IDXLEN_MAX := 1024
  const DATLEN_MIN := 2
  const DATLEN_MAX := 1024
  const NHASH := 137

  /** The program stops in err_dump or err_quit. */
  datatype Outcome<+T> = Done(value: T) | Fail

  datatype Option<+T> = None | Some(value: T)

  /** Header pointers: "%*d". */
  function PtrText(v: nat): seq<byte> {
    Padded(Decimal(v), PTR_SZ)
  }

  /** Record pointers: "%*.d", which prints no digit at all for zero. */
  function RecPtrText(v: nat): seq<byte> {
    Padded(if v == 0 then [] else Decimal(v), PTR_SZ)
  }

  /** Both pointer formats fill the field exactly and read back as the value, up to PTR_MAX. */
  lemma PtrTextRoundTrip(v: nat)
    ensures Atol(PtrText(v)) == v && Atol(RecPtrText(v)) == v
    ensures |PtrText(v)| == PTR_SZ <==> v <= PTR_MAX
    ensures |RecPtrText(v)| == PTR_SZ <==> v <= PTR_MAX
    ensures RecPtrText(0) == Blanks(PTR_SZ) && PtrText(0) == Blanks(PTR_SZ - 1) + [DIGIT_ZERO]
  {
    AtolOfDecimal(v);
    AtolOfPadded(Decimal(v), PTR_SZ);
    AtolOfPadded([], PTR_SZ);
    DecimalWidth(v, PTR_SZ);
    assert Pow10(6) == 1000000 by {
      assert Pow10(2) == 100;
      assert Pow10(4) == 10000;
    }
  }

  /** The part of a record after its length field. */
  function RecText(key: seq<byte>, datoff: nat, datlen: nat): seq<byte> {
    key + [SEP] + Decimal(datoff) + [SEP] + Decimal(datlen) + [NEWLINE]
  }

  /** Everything after a record's chain pointer: the length field, then the text. */
  function RecBody(key: seq<byte>, datoff: nat, datlen: nat): seq<byte> {
    var text := RecText(key, datoff, datlen);
    Padded(Decimal(|text|), IDXLEN_SZ) + text
  }

  /** The record of key "k" at data offset 829 with 12 bytes of data, whose successor is at 1234: both
      pads, both separators and the order of the fields. */
  lemma SampleRecord()
    ensures RecPtrText(1234) + RecBody([107], 829, 12)
            == [32, 32, 49, 50, 51, 52] + [32, 32, 32, 57] + [107, 58, 56, 50, 57, 58, 49, 50, 10]
  {
    SampleDecimals();
    assert RecText([107], 829, 12) == [107, 58, 56, 50, 57, 58, 49, 50, 10];
    assert Padded(Decimal(1234), PTR_SZ) == [32, 32, 49, 50, 51, 52];
    assert Padded(Decimal(9), IDXLEN_SZ) == [32, 32, 32, 57];
  }

  lemma SampleDecimals()
    ensures Decimal(9) == [57] && Decimal(12) == [49, 50] && Decimal(829) == [56, 50, 57]
    ensures Decimal(1234) == [49, 50, 51, 52]
  {
    assert Decimal(82) == [56, 50];
    assert Decimal(12) == [49, 50];
    assert Decimal(123) == [49, 50, 51];
  }

  /** A read of n bytes at off, when the file has them. */
  function ReadAt(file: seq<byte>, off: nat, n: nat): Option<seq<byte>> {
    if off + n <= |file| then Some(file[off..off + n]) else None
  }

  /** A write at off; a gap after the old end reads as NUL bytes. */
  function WriteAt(file: seq<byte>, off: nat, s: seq<byte>): (r: seq<byte>)
    ensures |r| == if off + |s| > |file| then off + |s| else |file|
  {
    if off >= |file| then file + seq(off - |file|, _ => NUL) + s
    else if off + |s| >= |file| then file[..off] + s
    else file[..off] + s + file[off + |s|..]
  }

  /** What _db_readptr returns. */
  function ParsePtr(idx: seq<byte>, off: nat): Outcome<int> {
    match ReadAt(idx, off, PTR_SZ)
    case None => Fail
    case Some(text) => Done(Atol(text))
  }

  datatype IdxRec = IdxRec(ptr: int, idxlen: nat, key: seq<byte>, datoff: nat, datlen: nat)

  datatype Parsed = Read(rec: IdxRec) | Eof | Bad

  /** Key, offset text and length text of a record line with exactly two separators. */
  function Split(line: seq<byte>): Option<(seq<byte>, seq<byte>, seq<byte>)> {
    var i := IndexOf(line, SEP);
    if i == |line| then None else
      var rest := line[i + 1..];
      var j := IndexOf(rest, SEP);
      if j == |rest| then None else
        var last := rest[j + 1..];
        if SEP in last then None else Some((line[..i], rest[..j], last))
  }

  /** What _db_readidx finds at off. */
  function ParseRec(idx: seq<byte>, off: nat): Parsed {
    if off >= |idx| then Eof
    else if off + PTR_SZ + IDXLEN_SZ > |idx| then Bad
    else
      var ptr := Atol(idx[off..off + PTR_SZ]);
      var start := off + PTR_SZ + IDXLEN_SZ;
      var len := Atol(idx[off + PTR_SZ..start]);
      if len < IDXLEN_MIN || len > IDXLEN_MAX || start + len > |idx| || idx[start + len - 1] != NEWLINE then Bad
      else
        match Split(CutAtNul(idx[start..start + len - 1]))
        case None => Bad
        case Some((key, offText, lenText)) =>
          var datoff, datlen := Atol(offText), Atol(lenText);
          if datoff < 0 || datlen <= 0 || datlen > DATLEN_MAX then Bad
          else Read(IdxRec(ptr, len, key, datoff, datlen))
  }

  /** Splitting three fields gives them back iff the first one holds no separator. */
  lemma SplitOfFields(key: seq<byte>, off: seq<byte>, len: seq<byte>)
    requires SEP !in off && SEP !in len
    ensures Split(key + [SEP] + off + [SEP] + len) == if SEP in key then None else Some((key, off, len))
  {
    if SEP in key {
      SplitTooMany(key, off, len);
    } else {
      SplitExact(key, off, len);
    }
  }

  lemma SplitExact(key: seq<byte>, off: seq<byte>, len: seq<byte>)
    requires SEP !in key && SEP !in off && SEP !in len
    ensures Split(key + [SEP] + off + [SEP] + len) == Some((key, off, len))
  {
    hide IndexOf;
    var line, rest := key + [SEP] + off + [SEP] + len, off + [SEP] + len;
    assert line == key + [SEP] + rest;
    IndexOfFirst(key, SEP, rest);
    IndexOfFirst(off, SEP, len);
    assert line[..|key|] == key && line[|key| + 1..] == rest;
    assert rest[..|off|] == off && rest[|off| + 1..] == len;
  }

  lemma SplitTooMany(key: seq<byte>, off: seq<byte>, len: seq<byte>)
    requires SEP in key && SEP !in off
    ensures Split(key + [SEP] + off + [SEP] + len) == None
  {
    hide IndexOf;
    var i := IndexOf(key, SEP);
    var head, tail := key[..i], key[i + 1..];
    assert key == head + [SEP] + tail;
    var line, rest := key + [SEP] + off + [SEP] + len, tail + [SEP] + off + [SEP] + len;
    assert line == head + [SEP] + rest;
    IndexOfFirst(head, SEP, rest);
    assert line[i + 1..] == rest;
    SecondTooEarly(tail, off + [SEP] + len);
    assert rest == tail + [SEP] + (off + [SEP] + len);
  }

  /** A separator in front of text that holds one leaves a separator after the first. */
  lemma SecondTooEarly(tail: seq<byte>, more: seq<byte>)
    requires SEP in more
    ensures var rest := tail + [SEP] + more;
            IndexOf(rest, SEP) < |rest| && SEP in rest[IndexOf(rest, SEP) + 1..]
  {
    hide IndexOf;
    var rest := tail + [SEP] + more;
    var j := IndexOf(rest, SEP);
    assert rest[|tail|] == SEP;
    assert j <= |tail| by {
      assert forall k | 0 <= k < j :: rest[..j][k] == rest[k];
    }
    var m :| 0 <= m < |more| && more[m] == SEP;
    assert rest[j + 1..][|tail| - j + m] == SEP;
  }

  /** A line and its newline, found in a file. */
  lemma LineThere(file: seq<byte>, start: nat, line: seq<byte>)
    requires start + |line| + 1 <= |file| && file[start..start + |line| + 1] == line + [NEWLINE]
    ensures file[start..start + |line|] == line && file[start + |line|] == NEWLINE
  {
    var there := file[start..start + |line| + 1];
    assert file[start + |line|] == there[|line|];
    assert file[start..start + |line|] == there[..|line|] == line;
  }

  /** The four parts of a record, found in their places. */
  lemma ParseRecParts(idx: seq<byte>, off: nat, key: seq<byte>, datoff: nat, datlen: nat)
    requires CString(key)
    requires IDXLEN_MIN <= |RecText(key, datoff, datlen)| <= IDXLEN_MAX
    requires 0 < datlen <= DATLEN_MAX
    requires off + PTR_SZ + IDXLEN_SZ + |RecText(key, datoff, datlen)| <= |idx|
    requires Atol(idx[off + PTR_SZ..off + PTR_SZ + IDXLEN_SZ]) == |RecText(key, datoff, datlen)|
    requires idx[off + PTR_SZ + IDXLEN_SZ..off + PTR_SZ + IDXLEN_SZ + |RecText(key, datoff, datlen)|]
             == RecText(key, datoff, datlen)
    ensures ParseRec(idx, off)
            == if SEP in key then Bad
               else Read(IdxRec(Atol(idx[off..off + PTR_SZ]), |RecText(key, datoff, datlen)|, key, datoff, datlen))
  {
    hide Decimal, Atol, Split;
    var text := RecText(key, datoff, datlen);
    var start := off + PTR_SZ + IDXLEN_SZ;
    var line := key + [SEP] + Decimal(datoff) + [SEP] + Decimal(datlen);
    assert text == line + [NEWLINE];
    LineThere(idx, start, line);
    assert CString(line);
    SplitOfFields(key, Decimal(datoff), Decimal(datlen));
    AtolOfDecimal(datoff);
    AtolOfDecimal(datlen);
  }

  lemma LengthField(n: nat)
    requires n <= IDXLEN_MAX
    ensures |Padded(Decimal(n), IDXLEN_SZ)| == IDXLEN_SZ && Atol(Padded(Decimal(n), IDXLEN_SZ)) == n
  {
    DecimalWidth(n, IDXLEN_SZ);
    assert Pow10(2) == 100;
    assert Pow10(4) == 10000;
    AtolOfPadded(Decimal(n), IDXLEN_SZ);
    AtolOfDecimal(n);
  }

  /** The record that _db_writeidx puts anywhere in a file reads back as the same four values and
      length, and this is so exactly for keys without a separator; otherwise the read dies. */
  lemma RecordRoundTrip(pre: seq<byte>, ptrText: seq<byte>, key: seq<byte>, datoff: nat, datlen: nat, post: seq<byte>)
    requires |ptrText| == PTR_SZ && CString(key)
    requires IDXLEN_MIN <= |RecText(key, datoff, datlen)| <= IDXLEN_MAX
    requires 0 < datlen <= DATLEN_MAX
    ensures ParseRec(pre + (ptrText + RecBody(key, datoff, datlen)) + post, |pre|)
            == if SEP in key then Bad
               else Read(IdxRec(Atol(ptrText), |RecText(key, datoff, datlen)|, key, datoff, datlen))
  {
    hide Decimal, Atol, ParseRec, RecText, Padded;
    var text := RecText(key, datoff, datlen);
    var lenText := Padded(Decimal(|text|), IDXLEN_SZ);
    var idx := pre + (ptrText + RecBody(key, datoff, datlen)) + post;
    LengthField(|text|);
    assert idx == pre + ptrText + (lenText + text + post);
    Middle(pre, ptrText, lenText + text + post);
    assert idx == (pre + ptrText) + lenText + (text + post);
    Middle(pre + ptrText, lenText, text + post);
    assert idx == (pre + ptrText + lenText) + text + post;
    Middle(pre + ptrText + lenText, text, post);
    ParseRecParts(idx, |pre|, key, datoff, datlen);
  }

  lemma Middle(pre: seq<byte>, s: seq<byte>, post: seq<byte>)
    ensures (pre + s + post)[|pre|..|pre| + |s|] == s
  {
  }
}
