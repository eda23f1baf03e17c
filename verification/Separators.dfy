/** What becomes of a database when a key that holds the separator is stored: db_store does not look
    for it (db.c:454-457, 510-561), and _db_readidx cannot read the record back (db.c:287-296). */
module Separators {
  import opened Text
  import opened Records
  import opened Tiling
  import opened Links
  import opened Images
  import opened Lookups
  import opened Steps
  import opened Scans
  import opened Effects
  import opened History

  ghost predicate SameTile(im: Image, idx: seq<byte>, idx': seq<byte>, i: nat)
    requires i < |im.tiles|
  {
    && IdxStart(im.tiles, i) <= IdxStart(im.tiles, i + 1) <= |idx| == |idx'|
    && idx'[IdxStart(im.tiles, i)..IdxStart(im.tiles, i + 1)] == idx[IdxStart(im.tiles, i)..IdxStart(im.tiles, i + 1)]
  }

  /** The index file is the same but for tile j and perhaps tile l. */
  ghost predicate SameElsewhere(im: Image, idx: seq<byte>, idx': seq<byte>, j: nat, l: nat) {
    && |idx'| == |idx|
    && forall i | 0 <= i < |im.tiles| && i != j && i != l :: SameTile(im, idx, idx', i)
  }

  /** A write within one tile leaves the others alone. */
  lemma WriteElsewhere(im: Image, idx: seq<byte>, j: nat, s: seq<byte>)
    requires j < |im.tiles| && |idx| == IdxStart(im.tiles, |im.tiles|) && |s| <= |IdxBytes(im.tiles[j])|
    ensures forall l :: SameElsewhere(im, idx, WriteAt(idx, IdxStart(im.tiles, j), s), j, l)
  {
    hide IdxBytes, IdxStart, WriteAt;
    var idx' := WriteAt(idx, IdxStart(im.tiles, j), s);
    TileEnd(im, j, |im.tiles|);
    forall i | 0 <= i < |im.tiles| && i != j ensures SameTile(im, idx, idx', i) {
      TileEnd(im, i, |im.tiles|);
      if i < j {
        TileEnd(im, i, j);
      } else {
        TileEnd(im, j, i);
      }
      OutsideSame(idx, IdxStart(im.tiles, j), s, IdxStart(im.tiles, i), IdxStart(im.tiles, i + 1));
    }
  }

  lemma OutsideSame(file: seq<byte>, off: nat, s: seq<byte>, x: nat, y: nat)
    requires off + |s| <= |file| && x <= y <= |file| && (y <= off || off + |s| <= x)
    ensures |WriteAt(file, off, s)| == |file| && WriteAt(file, off, s)[x..y] == file[x..y]
  {
  }

  lemma TileEnd(im: Image, i: nat, j: nat)
    requires i < j <= |im.tiles|
    ensures IdxStart(im.tiles, i) + |IdxBytes(im.tiles[i])| == IdxStart(im.tiles, i + 1) <= IdxStart(im.tiles, j)
  {
    hide IdxBytes;
    StartOrder(IdxParts(im.tiles), i, j);
    StartOrder(IdxParts(im.tiles), i, i + 1);
  }

  lemma ElsewhereTwice(im: Image, a: seq<byte>, b: seq<byte>, c: seq<byte>, j: nat, l: nat)
    requires SameElsewhere(im, a, b, j, l) && SameElsewhere(im, b, c, l, j)
    ensures SameElsewhere(im, a, c, j, l)
  {
    hide IdxStart;
    forall i | 0 <= i < |im.tiles| && i != j && i != l ensures SameTile(im, a, c, i) {
      assert SameTile(im, a, b, i) && SameTile(im, b, c, i);
    }
  }

  /** A record is read from its own bytes. */
  lemma ReadsOwnBytes(a: seq<byte>, b: seq<byte>, off: nat, rec: IdxRec)
    requires |a| == |b| && ParseRec(a, off) == Read(rec)
    requires var end := off + PTR_SZ + IDXLEN_SZ + rec.idxlen; end <= |a| ==> a[off..end] == b[off..end]
    ensures ParseRec(b, off) == Read(rec)
  {
    hide Atol, Split;
    var start := off + PTR_SZ + IDXLEN_SZ;
    var end := start + rec.idxlen;
    SameSlice(a, b, off, end, off, off + PTR_SZ);
    SameSlice(a, b, off, end, off + PTR_SZ, start);
    SameSlice(a, b, off, end, start, end - 1);
    SameSlice(a, b, off, end, end - 1, end);
    assert a[end - 1] == a[end - 1..end][0];
  }

  lemma SameSlice(a: seq<byte>, b: seq<byte>, off: nat, end: nat, x: nat, y: nat)
    requires off <= x <= y <= end <= |a| == |b| && a[off..end] == b[off..end]
    ensures a[x..y] == b[x..y]
  {
    forall i | x <= i < y ensures a[i] == b[i] {
      assert a[i] == a[off..end][i - off] == b[off..end][i - off] == b[i];
    }
  }

  /** Lookups on chains other than that of head l see nothing of a change of an orphan and of head l. */
  lemma OtherLookups(im: Image, idx: seq<byte>, dat: seq<byte>, idx': seq<byte>, j: nat, l: nat, key: Key)
    requires Searchable(im, idx, dat) && FIRST <= j < |im.tiles| && im.owner[j] == ORPHAN
    requires SameElsewhere(im, idx, idx', j, l) && 1 + Hash(key) != l && l <= HEADS
    ensures Lookup(idx', dat, key) == Done(MapGet(Contents(im), key))
  {
    hide ParseRec, RecText, HashPrefix, ReadData, Search, IdxStart, Stored, Partitioned, Spelled, SameElsewhere;
    Basics(im, idx, dat);
    var h := 1 + Hash(key);
    HeadStart(im, h);
    var offs, recs := ListSpelled(im, idx, dat, h);
    var i := ChainPosition(im, key);
    ChainFitsFile(im, idx, dat, h);
    OtherHead(im, idx, dat, idx', j, l, h);
    OtherSpelled(im, idx, dat, idx', j, l, h, offs, recs);
    SearchStops(idx', offs, recs, key, 0, i, |idx'|);
    if key in im.index {
      DataReadBack(im, idx, dat, im.index[key]);
    }
  }

  lemma OtherHead(im: Image, idx: seq<byte>, dat: seq<byte>, idx': seq<byte>, j: nat, l: nat, h: nat)
    requires Searchable(im, idx, dat) && FIRST <= j < |im.tiles|
    requires SameElsewhere(im, idx, idx', j, l) && 1 <= h < HEADS && h != l
    ensures |idx'| == |idx| && ParsePtr(idx', IdxStart(im.tiles, h)) == ParsePtr(idx, IdxStart(im.tiles, h))
  {
    hide Atol, Partitioned, Indexed, IdxStart;
    HeadStart(im, h);
    HeadStart(im, h + 1);
    assert SameTile(im, idx, idx', h);
    assert IdxStart(im.tiles, h + 1) == IdxStart(im.tiles, h) + PTR_SZ;
  }

  lemma OtherSpelled(im: Image, idx: seq<byte>, dat: seq<byte>, idx': seq<byte>, j: nat, l: nat, h: nat,
                     offs: seq<nat>, recs: seq<IdxRec>)
    requires Searchable(im, idx, dat) && FIRST <= j < |im.tiles| && im.owner[j] == ORPHAN
    requires SameElsewhere(im, idx, idx', j, l) && 1 <= h < HEADS && l <= HEADS && |im.lists| == HEADS
    requires Spelled(idx, offs, recs) && |offs| == |recs| == |im.lists[h]|
    requires forall k | 0 <= k < |offs| :: im.lists[h][k] <= |im.tiles| && offs[k] == IdxStart(im.tiles, im.lists[h][k])
    ensures Spelled(idx', offs, recs)
  {
    hide ParseRec, IdxStart, Partitioned, Stored, SameElsewhere, Indexed;
    Basics(im, idx, dat);
    forall k | 0 <= k < |offs| ensures ParseRec(idx', offs[k]) == Read(recs[k]) {
      OnChain(im, h, k);
      OtherRecord(im, idx, dat, idx', j, l, im.lists[h][k], recs[k]);
    }
  }

  lemma OnChain(im: Image, h: nat, k: nat)
    requires Partitioned(im.next, im.owner, im.lists) && Indexed(im) && 1 <= h < HEADS && k < |im.lists[h]|
    ensures FIRST <= im.lists[h][k] < |im.tiles| && im.owner[im.lists[h][k]] == h
  {
    ChainMember(im, h, k);
  }

  lemma OtherRecord(im: Image, idx: seq<byte>, dat: seq<byte>, idx': seq<byte>, j: nat, l: nat, i: nat, rec: IdxRec)
    requires Stored(im, idx, dat) && FIRST <= i < |im.tiles| && i != j && l <= HEADS
             && SameElsewhere(im, idx, idx', j, l)
    requires ParseRec(idx, IdxStart(im.tiles, i)) == Read(rec)
    ensures ParseRec(idx', IdxStart(im.tiles, i)) == Read(rec)
  {
    hide ParseRec, RecText, IdxStart, Stored, IdxBytes, Shaped;
    StoredShaped(im, idx, dat);
    assert SameTile(im, idx, idx', i);
    RecRead(im, idx, dat, i);
    RecLength(im, i);
    ReadsOwnBytes(idx, idx', IdxStart(im.tiles, i), rec);
  }

  lemma StoredShaped(im: Image, idx: seq<byte>, dat: seq<byte>)
    requires Stored(im, idx, dat)
    ensures Shaped(im)
  {
  }

  /** A record under a key with a separator cannot be read. */
  lemma Unreadable(idx: seq<byte>, off: nat, ptrText: seq<byte>, key: Key, datoff: nat, datlen: nat)
    requires |ptrText| == PTR_SZ && CString(key) && SEP in key && 0 < datlen <= DATLEN_MAX
    requires IDXLEN_MIN <= |RecText(key, datoff, datlen)| <= IDXLEN_MAX
    requires var body := ptrText + RecBody(key, datoff, datlen); off + |body| <= |idx| && idx[off..off + |body|] == body
    ensures ParseRec(idx, off) == Bad
  {
    hide RecText, RecBody, ParseRec;
    var body := ptrText + RecBody(key, datoff, datlen);
    assert idx == idx[..off] + body + idx[off + |body|..];
    RecordRoundTrip(idx[..off], ptrText, key, datoff, datlen, idx[off + |body|..]);
  }

  /** A chain whose first record cannot be read. */
  lemma DeadChain(idx: seq<byte>, dat: seq<byte>, at: nat, key: Key)
    requires ParsePtr(idx, ChainOff(key)) == Done(at) && at > 0 && ParseRec(idx, at) == Bad && |idx| > 0
    ensures Lookup(idx, dat, key) == Fail
  {
    hide ParseRec, ParsePtr, HashPrefix;
  }

  lemma PlacedAt(im: Image, j: nat)
    requires Shaped(im) && FIRST <= j < |im.tiles|
    ensures GoodTile(im.tiles[j], j) && im.tiles[j].Rec?
  {
    assert Placed(im.tiles, im.next, j);
  }

  /** A record under a key with a separator, written over an orphan of the same size, is invisible;
      once the head of its chain names it, every lookup on that chain dies, and no other changes. */
  lemma SpoilsChain(im: Image, idx: seq<byte>, dat: seq<byte>, j: nat, ptrText: seq<byte>, key: Key)
    requires Searchable(im, idx, dat) && FIRST <= j < |im.tiles| && im.owner[j] == ORPHAN && im.tiles[j].Rec?
    requires |ptrText| == PTR_SZ && CString(key) && SEP in key && |key| == |im.tiles[j].key|
    ensures Indexed(im) && 0 < IdxStart(im.tiles, j)
    ensures var idx1 := WriteAt(idx, IdxStart(im.tiles, j),
                                ptrText + RecBody(key, im.tiles[j].datoff, |im.tiles[j].data| + 1));
            && Shows(idx1, dat, Contents(im))
            && (IdxStart(im.tiles, j) <= PTR_MAX ==>
                  Spoiled(WriteAt(idx1, ChainOff(key), PtrText(IdxStart(im.tiles, j))), dat, Contents(im), Hash(key)))
  {
    hide RecText, RecBody, IdxStart, Partitioned, Stored, Indexed, Lookup, HashPrefix, ParseRec, ParsePtr, PtrText,
      WriteAt, Shaped, SameElsewhere, ChainOff;
    Basics(im, idx, dat);
    RecStart(im, j);
    var t, l, at := im.tiles[j], 1 + Hash(key), IdxStart(im.tiles, j);
    var body := ptrText + RecBody(key, t.datoff, |t.data| + 1);
    var idx1 := WriteAt(idx, at, body);
    PlacedAt(im, j);
    SameBodySize(key, t.key, t.datoff, |t.data| + 1);
    IdxSize(im, idx, dat);
    TileSize(t);
    WriteElsewhere(im, idx, j, body);
    forall k ensures Lookup(idx1, dat, k) == Done(MapGet(Contents(im), k)) {
      OtherLookups(im, idx, dat, idx1, j, HEADS, k);
    }
    if at <= PTR_MAX {
      SpoiledChain(im, idx, dat, j, ptrText, key);
    }
  }

  lemma IdxSize(im: Image, idx: seq<byte>, dat: seq<byte>)
    requires Stored(im, idx, dat)
    ensures |idx| == IdxStart(im.tiles, |im.tiles|)
  {
  }

  lemma TileSize(t: Tile)
    requires t.Rec?
    ensures |IdxBytes(t)| == |t.ptr| + |RecBody(t.key, t.datoff, |t.data| + 1)|
  {
  }

  lemma SpoiledChain(im: Image, idx: seq<byte>, dat: seq<byte>, j: nat, ptrText: seq<byte>, key: Key)
    requires Searchable(im, idx, dat) && FIRST <= j < |im.tiles| && im.owner[j] == ORPHAN && im.tiles[j].Rec?
    requires |ptrText| == PTR_SZ && CString(key) && SEP in key && |key| == |im.tiles[j].key|
    requires 0 < IdxStart(im.tiles, j) <= PTR_MAX
    ensures Indexed(im)
    ensures var idx1 := WriteAt(idx, IdxStart(im.tiles, j),
                                ptrText + RecBody(key, im.tiles[j].datoff, |im.tiles[j].data| + 1));
            Spoiled(WriteAt(idx1, ChainOff(key), PtrText(IdxStart(im.tiles, j))), dat, Contents(im), Hash(key))
  {
    hide RecText, RecBody, IdxStart, Partitioned, Stored, Indexed, Lookup, HashPrefix, ParseRec, ParsePtr, PtrText,
      WriteAt, Shaped, SameElsewhere;
    Basics(im, idx, dat);
    var t, l, at := im.tiles[j], 1 + Hash(key), IdxStart(im.tiles, j);
    var body, head := ptrText + RecBody(key, t.datoff, |t.data| + 1), PtrText(at);
    var idx1 := WriteAt(idx, at, body);
    var idx2 := WriteAt(idx1, ChainOff(key), head);
    PlacedAt(im, j);
    SameBodySize(key, t.key, t.datoff, |t.data| + 1);
    IdxSize(im, idx, dat);
    TileSize(t);
    HeadStart(im, l);
    PtrTextRoundTrip(at);
    HeadTile(im, l);
    WriteElsewhere(im, idx, j, body);
    SizeKept(im, idx, idx1, j, l);
    TileEnd(im, j, |im.tiles|);
    TileEnd(im, l, |im.tiles|);
    TileEnd(im, l, j);
    WriteElsewhere(im, idx1, l, head);
    ElsewhereTwice(im, idx, idx1, idx2, j, l);
    WrittenThere(idx1, ChainOff(key), head);
    WrittenThere(idx, at, body);
    OutsideSame(idx1, ChainOff(key), head, at, at + |body|);
    Unreadable(idx2, at, ptrText, key, t.datoff, |t.data| + 1);
    HeadReads(idx2, ChainOff(key), head, at);
    forall k ensures Lookup(idx2, dat, k) == if Hash(k) == Hash(key) then Fail else Done(MapGet(Contents(im), k)) {
      if Hash(k) == Hash(key) {
        DeadChain(idx2, dat, at, k);
      } else {
        OtherLookups(im, idx, dat, idx2, j, l, k);
      }
    }
  }

  lemma HeadTile(im: Image, l: nat)
    requires Shaped(im) && l < HEADS
    ensures |IdxBytes(im.tiles[l])| == PTR_SZ
  {
    assert Placed(im.tiles, im.next, l);
  }

  lemma SizeKept(im: Image, idx: seq<byte>, idx': seq<byte>, j: nat, l: nat)
    requires SameElsewhere(im, idx, idx', j, l)
    ensures |idx'| == |idx|
  {
  }

  lemma WrittenThere(file: seq<byte>, off: nat, s: seq<byte>)
    requires off + |s| <= |file|
    ensures WriteAt(file, off, s)[off..off + |s|] == s
  {
  }

  lemma HeadReads(idx: seq<byte>, off: nat, head: seq<byte>, at: nat)
    requires off + PTR_SZ <= |idx| && |head| == PTR_SZ && idx[off..off + PTR_SZ] == head && Atol(head) == at
    ensures ParsePtr(idx, off) == Done(at)
  {
  }

  // ---- Inserting any key ----

  /** A new key was stored: the map has it, or, if it holds the separator, its chain is lost. */
  ghost predicate Inserted(im: Image, im': Image, idx': seq<byte>, dat': seq<byte>, key: Key, data: Data, free: int,
                           total: int) {
    Indexed(im) &&
    if SEP in key then Spoiled(idx', dat', Contents(im), Hash(key))
    else Became(im, im', idx', dat', MapPut(Contents(im), key, data), free, total)
  }

  /** The store died half way: the map is what it was. */
  ghost predicate Uninserted(im: Image, im': Image, idx': seq<byte>, dat': seq<byte>, key: Key) {
    Indexed(im) && Shows(idx', dat', Contents(im)) && (SEP !in key ==> Shown(im', idx', dat', Contents(im)))
  }

  /** Every state since before showed m until the last write, which put the key in or lost its chain. */
  ghost predicate InsertedLast(before: seq<Snap>, after: seq<Snap>, m: map<Key, Data>, key: Key, data: Data) {
    if SEP in key then
      && |before| < |after| && ShowedAll(before, after[..|after| - 1], m)
      && Spoiled(after[|after| - 1].idx, after[|after| - 1].dat, m, Hash(key))
    else Switched(before, after, m, MapPut(m, key, data))
  }

  /** Record j is written and only the chain head is left to write. */
  ghost predicate Awaits(im: Image, im1: Image, idx1: seq<byte>, dat1: seq<byte>, j: nat, key: Key, data: Data,
                         free: int, total: int) {
    && Indexed(im) && j <= |im1.tiles| && Shows(idx1, dat1, Contents(im))
    && |idx1| >= (NHASH + 1) * PTR_SZ + 1
    && (SEP !in key ==> Shown(im1, idx1, dat1, Contents(im)))
    && (IdxStart(im1.tiles, j) <= PTR_MAX ==>
          if SEP in key then Spoiled(WriteAt(idx1, ChainOff(key), PtrText(IdxStart(im1.tiles, j))), dat1, Contents(im),
                                     Hash(key))
          else Ready(im, im1, idx1, dat1, j, key, data, free, total))
  }

  ghost function AfterPublish(im1: Image, key: Key, j: nat, text: seq<byte>): Image {
    if |im1.lists| == HEADS <= |im1.next| == |im1.tiles| == |im1.owner| && j < |im1.tiles|
        && !im1.tiles[1 + Hash(key)].Newline?
    then Published(im1, key, j, text) else im1
  }

  lemma PublishAny(im: Image, im1: Image, idx1: seq<byte>, dat1: seq<byte>, j: nat, key: Key, data: Data, free: int,
                   total: int)
    requires Awaits(im, im1, idx1, dat1, j, key, data, free, total)
    ensures j <= |im1.tiles| && Indexed(im)
    ensures IdxStart(im1.tiles, j) <= PTR_MAX ==>
              var text := PtrText(IdxStart(im1.tiles, j));
              Inserted(im, AfterPublish(im1, key, j, text), WriteAt(idx1, ChainOff(key), text), dat1, key, data, free,
                       total)
  {
    hide IdxStart, PtrText, WriteAt, Hash, Indexed, Contents, Shows, Spoiled, Became, Ready, Published, MapPut, Shown;
    if SEP !in key && IdxStart(im1.tiles, j) <= PTR_MAX {
      Publish(im, im1, idx1, dat1, j, key, data, free, total);
    }
  }

  lemma InsertsNow(t0: seq<Snap>, t1: seq<Snap>, t2: seq<Snap>, im: Image, im': Image, idx: seq<byte>, dat: seq<byte>,
                   key: Key, data: Data, free: int, total: int)
    requires Indexed(im) && ShowedAll(t0, t1, Contents(im)) && Wrote(t1, t2, idx, dat)
    requires Inserted(im, im', idx, dat, key, data, free, total)
    ensures InsertedLast(t0, t2, Contents(im), key, data)
  {
    hide Indexed, Contents, Shows, Spoiled, MapPut, Quiescent, Hash;
    if SEP in key {
      assert t2[..|t1|] == t1;
    } else {
      SwitchesNow(t0, t1, t2, Contents(im), MapPut(Contents(im), key, data), idx, dat);
    }
  }

  /** No key with a separator is ever in the database. */
  lemma KeysReadable(im: Image, idx: seq<byte>, dat: seq<byte>)
    requires Searchable(im, idx, dat)
    ensures Indexed(im) && forall key | key in im.index :: SEP !in key
  {
    hide RecText, IdxStart, Partitioned;
    forall key | key in im.index ensures SEP !in key {
      PlacedAt(im, im.index[key]);
    }
  }

  /** Appending the data, and then the record, for any key. */
  lemma AnyAppended(im: Image, idx: seq<byte>, dat: seq<byte>, key: Key, data: Data)
    requires Quiescent(im, idx, dat) && Storable(key, data) && Indexed(im) && key !in im.index
    requires IDXLEN_MIN <= |RecText(key, |dat|, |data| + 1)| <= IDXLEN_MAX
    ensures 1 + Hash(key) < |im.next| == |im.tiles| && im.next[1 + Hash(key)] < |im.tiles|
    ensures var n := im.next[1 + Hash(key)];
            var idx1, dat1 := AppendedIdx(idx, dat, Addr(im.tiles, n), key, data), AppendedDat(dat, data);
            var im1 := AddRec(im, NewRec(im, dat, key, data), n);
            && Addr(im.tiles, n) <= PTR_MAX
            && |im1.tiles| == |im.tiles| + 1 && IdxStart(im1.tiles, |im.tiles|) == |idx|
            && Awaits(im, im1, idx1, dat1, |im.tiles|, key, data, 0, 1)
  {
    hide IdxStart, RecPtrText, WriteAt, HashPrefix, Searchable, Quiescent, Indexed, Contents, Shows, DatFile, Loose,
      RecText, RecBody, Ready, Spoiled, Shown, PtrText;
    QuiescentParts(im, idx, dat);
    HeaderSize(im, idx, dat);
    if SEP in key {
      SpoilingAppended(im, idx, dat, key, data);
    } else {
      RecordAppended(im, idx, dat, key, data);
      var n := im.next[1 + Hash(key)];
      ShownFacts(AddRec(im, NewRec(im, dat, key, data), n), AppendedIdx(idx, dat, Addr(im.tiles, n), key, data),
                 AppendedDat(dat, data),
                 Contents(im));
    }
  }

  /** A blank key of the same length stands in for the unreadable one. */
  lemma SpoilingAppended(im: Image, idx: seq<byte>, dat: seq<byte>, key: Key, data: Data)
    requires Quiescent(im, idx, dat) && Storable(key, data) && Indexed(im) && SEP in key
    requires IDXLEN_MIN <= |RecText(key, |dat|, |data| + 1)| <= IDXLEN_MAX
    ensures 1 + Hash(key) < |im.next| == |im.tiles| && im.next[1 + Hash(key)] < |im.tiles|
    ensures var n := im.next[1 + Hash(key)];
            var idx1, dat1 := AppendedIdx(idx, dat, Addr(im.tiles, n), key, data), AppendedDat(dat, data);
            var im1 := AddRec(im, NewRec(im, dat, key, data), n);
            && Addr(im.tiles, n) <= PTR_MAX
            && |im1.tiles| == |im.tiles| + 1 && IdxStart(im1.tiles, |im.tiles|) == |idx|
            && Shows(idx1, dat1, Contents(im))
            && (|idx| <= PTR_MAX ==>
                  Spoiled(WriteAt(idx1, ChainOff(key), PtrText(|idx|)), dat1, Contents(im), Hash(key)))
  {
    hide IdxStart, RecPtrText, WriteAt, HashPrefix, Searchable, Indexed, Contents, Shows, DatFile, Loose, RecText,
      RecBody, Spoiled, PtrText, ChainOff, Partitioned;
    var blank := Blanks(|key|);
    SameBodySize(blank, key, |dat|, |data| + 1);
    QuiescentParts(im, idx, dat);
    AppendStep(im, idx, dat, blank, data);
    InRange(im, idx, dat, 1 + Hash(blank));
    InRange(im, idx, dat, 1 + Hash(key));
    var n, b := im.next[1 + Hash(key)], im.next[1 + Hash(blank)];
    TextNames(im, n);
    TextNames(im, b);
    var im1 := AddRec(im, NewRec(im, dat, blank, data), b);
    var idxS := AppendedIdx(idx, dat, Addr(im.tiles, b), blank, data);
    var text := RecPtrText(Addr(im.tiles, n));
    AppendSame(im, NewRec(im, dat, blank, data), NewRec(im, dat, key, data));
    OverwriteTail(idx, RecPtrText(Addr(im.tiles, b)) + RecBody(blank, |dat|, |data| + 1),
                  text + RecBody(key, |dat|, |data| + 1));
    OrphanLast(im, NewRec(im, dat, blank, data), b);
    SpoilsChain(im1, idxS, AppendedDat(dat, data), |im.tiles|, text, key);
  }

  lemma AppendSame(im: Image, a: Tile, b: Tile)
    ensures IdxStart(im.tiles + [a], |im.tiles|) == IdxStart(im.tiles + [b], |im.tiles|)
  {
    StartSame(IdxParts(im.tiles + [a]), IdxParts(im.tiles + [b]), |im.tiles|);
  }

  lemma OverwriteTail(file: seq<byte>, a: seq<byte>, b: seq<byte>)
    requires |a| == |b|
    ensures WriteAt(WriteAt(file, |file|, a), |file|, b) == WriteAt(file, |file|, b)
  {
    assert seq(0, _ => NUL) == [];
    assert WriteAt(file, |file|, a) == file + a && WriteAt(file, |file|, b) == file + b;
  }

  lemma OrphanLast(im: Image, t: Tile, n: nat)
    requires |im.owner| == |im.tiles|
    ensures var im1 := AddRec(im, t, n);
            |im1.tiles| == |im.tiles| + 1 && im1.owner[|im.tiles|] == ORPHAN && im1.tiles[|im.tiles|] == t
  {
  }

  /** Writing the data, and then the record, over one just taken off the free list, for any key. */
  lemma AnyRewritten(im: Image, im0: Image, idx0: seq<byte>, dat: seq<byte>, j: nat, key: Key, data: Data)
    requires Freed(im, im0, idx0, dat, j) && Storable(key, data) && key !in im.index
    requires im0.tiles[j].Rec? && |key| == |im0.tiles[j].key| && |data| == |im0.tiles[j].data|
    ensures var im1, dat1 := SetData(im0, j, data), RefilledDat(dat, im0.tiles[j].datoff, data);
            && 1 + Hash(key) < |im1.next| == |im1.tiles| && j < |im1.tiles| && im1.next[1 + Hash(key)] < |im1.tiles|
            && IDXLEN_MIN <= |RecText(key, im0.tiles[j].datoff, |data| + 1)| <= IDXLEN_MAX
            && var ptr := Addr(im1.tiles, im1.next[1 + Hash(key)]);
            && ptr <= PTR_MAX
            && var im2 := SetRec(im1, j, RecPtrText(ptr), im1.next[1 + Hash(key)], key);
            && var idx2 := WriteAt(idx0, IdxStart(im0.tiles, j),
                                   RecPtrText(ptr) + RecBody(key, im0.tiles[j].datoff, |data| + 1));
            && |im2.tiles| == |im0.tiles| && IdxStart(im2.tiles, j) == IdxStart(im0.tiles, j) <= PTR_MAX
            && Awaits(im, im2, idx2, dat1, j, key, data, -1, 0)
  {
    hide IdxStart, RecPtrText, WriteAt, HashPrefix, Searchable, Indexed, Contents, Shows, Loose, RecText, RecBody,
      Ready, Spoiled, Shown, PtrText;
    LooseFacts(im0, idx0, dat, j);
    HeaderSize(im0, idx0, dat);
    if SEP in key {
      SpoilingRewritten(im, im0, idx0, dat, j, key, data);
    } else {
      RecordRewritten(im, im0, idx0, dat, j, key, data);
      var im1, dat1 := SetData(im0, j, data), RefilledDat(dat, im0.tiles[j].datoff, data);
      var ptr := Addr(im1.tiles, im1.next[1 + Hash(key)]);
      var im2 := SetRec(im1, j, RecPtrText(ptr), im1.next[1 + Hash(key)], key);
      ReadyFacts(im, im2, WriteAt(idx0, IdxStart(im0.tiles, j),
                                  RecPtrText(ptr) + RecBody(key, im0.tiles[j].datoff, |data| + 1)), dat1,
                 j, key, data, -1, 0);
      ShownFacts(im2, WriteAt(idx0, IdxStart(im0.tiles, j),
                              RecPtrText(ptr) + RecBody(key, im0.tiles[j].datoff, |data| + 1)), dat1,
                 Contents(im));
    }
  }

  lemma SpoilingRewritten(im: Image, im0: Image, idx0: seq<byte>, dat: seq<byte>, j: nat, key: Key, data: Data)
    requires Freed(im, im0, idx0, dat, j) && Storable(key, data) && SEP in key
    requires im0.tiles[j].Rec? && |key| == |im0.tiles[j].key| && |data| == |im0.tiles[j].data|
    ensures var im1, dat1 := SetData(im0, j, data), RefilledDat(dat, im0.tiles[j].datoff, data);
            && 1 + Hash(key) < |im1.next| == |im1.tiles| && j < |im1.tiles| && im1.next[1 + Hash(key)] < |im1.tiles|
            && IDXLEN_MIN <= |RecText(key, im0.tiles[j].datoff, |data| + 1)| <= IDXLEN_MAX
            && var ptr := Addr(im1.tiles, im1.next[1 + Hash(key)]);
            && ptr <= PTR_MAX
            && var im2 := SetRec(im1, j, RecPtrText(ptr), im1.next[1 + Hash(key)], key);
            && var idx2 := WriteAt(idx0, IdxStart(im0.tiles, j),
                                   RecPtrText(ptr) + RecBody(key, im0.tiles[j].datoff, |data| + 1));
            && |im2.tiles| == |im0.tiles| && IdxStart(im2.tiles, j) == IdxStart(im0.tiles, j) <= PTR_MAX
            && Indexed(im) && Shows(idx2, dat1, Contents(im))
            && Spoiled(WriteAt(idx2, ChainOff(key), PtrText(IdxStart(im0.tiles, j))), dat1, Contents(im), Hash(key))
  {
    hide IdxStart, RecPtrText, WriteAt, HashPrefix, Searchable, Indexed, Contents, Shows, Loose, RecText, RecBody,
      Spoiled, PtrText, ChainOff;
    RecordRefilled(im, im0, idx0, dat, j, data);
    var im1, dat1 := SetData(im0, j, data), RefilledDat(dat, im0.tiles[j].datoff, data);
    LooseFacts(im1, idx0, dat1, j);
    InRange(im1, idx0, dat1, 1 + Hash(key));
    var n := im1.next[1 + Hash(key)];
    var text := RecPtrText(Addr(im1.tiles, n));
    TextNames(im1, n);
    LooseOwner(im1, idx0, dat1, j);
    SameBodySize(key, im0.tiles[j].key, im0.tiles[j].datoff, |data| + 1);
    SpoilsChain(im1, idx0, dat1, j, text, key);
    ResizedSame(im1, j, text, key, n);
  }

  lemma LooseOwner(im: Image, idx: seq<byte>, dat: seq<byte>, j: nat)
    requires Loose(im, idx, dat, j)
    ensures j < |im.owner| && im.owner[j] == ORPHAN
    ensures IDXLEN_MIN <= |RecText(im.tiles[j].key, im.tiles[j].datoff, |im.tiles[j].data| + 1)| <= IDXLEN_MAX
  {
    hide IdxStart, RecText;
    PlacedAt(im, j);
  }

  lemma ResizedSame(im: Image, j: nat, text: seq<byte>, key: Key, n: nat)
    requires j < |im.tiles| == |im.next| && im.tiles[j].Rec?
    ensures |SetRec(im, j, text, n, key).tiles| == |im.tiles|
    ensures IdxStart(SetRec(im, j, text, n, key).tiles, j) == IdxStart(im.tiles, j)
  {
    StartSame(IdxParts(SetRec(im, j, text, n, key).tiles), IdxParts(im.tiles), j);
  }

  lemma InsertedPlain(im: Image, im': Image, idx': seq<byte>, dat': seq<byte>, key: Key, data: Data, free: int,
                      total: int)
    requires Inserted(im, im', idx', dat', key, data, free, total) && SEP !in key
    ensures Indexed(im) && Became(im, im', idx', dat', MapPut(Contents(im), key, data), free, total)
  {
  }

  lemma InsertedLastPlain(before: seq<Snap>, after: seq<Snap>, m: map<Key, Data>, key: Key, data: Data)
    requires InsertedLast(before, after, m, key, data) && SEP !in key
    ensures Switched(before, after, m, MapPut(m, key, data))
  {
  }

  lemma UninsertedPlain(im: Image, im': Image, idx': seq<byte>, dat': seq<byte>, key: Key)
    requires Uninserted(im, im', idx', dat', key)
    ensures Indexed(im) && Shows(idx', dat', Contents(im)) && (SEP !in key ==> Shown(im', idx', dat', Contents(im)))
  {
  }

  lemma UninsertedNow(im: Image, im': Image, idx': seq<byte>, dat': seq<byte>, key: Key)
    requires Indexed(im) && Shown(im', idx', dat', Contents(im))
    ensures Uninserted(im, im', idx', dat', key)
  {
  }

  lemma AwaitsFacts(im: Image, im1: Image, idx1: seq<byte>, dat1: seq<byte>, j: nat, key: Key, data: Data, free: int,
                    total: int)
    requires Awaits(im, im1, idx1, dat1, j, key, data, free, total)
    ensures Indexed(im) && Shows(idx1, dat1, Contents(im)) && Uninserted(im, im1, idx1, dat1, key)
    ensures |idx1| >= (NHASH + 1) * PTR_SZ + 1
  {
  }

  /** The store puts an unreadable record at the front of a chain. */
  predicate Spoils(key: Key, kind: Kind) {
    SEP in key && kind in {Appended, Reused}
  }

  lemma NowInserted(im: Image, im': Image, idx': seq<byte>, dat': seq<byte>, key: Key, data: Data, flag: nat)
    requires Indexed(im) && key !in im.index && !HasBit(flag, DB_REPLACE)
    requires var kind := KindOf(im, key, data, flag);
             Inserted(im, im', idx', dat', key, data, FreeDelta(kind), TotalDelta(kind))
    ensures var kind := KindOf(im, key, data, flag);
            && kind in {Appended, Reused}
            && (Spoils(key, kind) ==> Spoiled(idx', dat', Contents(im), Hash(key)))
            && (!Spoils(key, kind) ==>
                  Became(im, im', idx', dat', MapAfter(Contents(im), key, data, kind), FreeDelta(kind),
                         TotalDelta(kind)))
  {
    hide Indexed, Contents, Spoiled, Became, HasFit, HasBit, MapPut, Hash;
  }
}
