/** The effect of each operation's writes, as the operations of the database class use them. */
module Effects {
  import opened Text
  import opened Records
  import opened Links
  import opened Tiling
  import opened Images
  import opened Lookups
  import opened Steps

  /** What the library asks of a key and what db_store accepts as data. */
  predicate Storable(key: Key, data: Data) {
    && CString(key)
    && CString(data) && DATLEN_MIN <= |data| + 1 <= DATLEN_MAX
  }

  function MapPut(m: map<Key, Data>, key: Key, data: Data): map<Key, Data> {
    m[key := data]
  }

  /** How many records there are: free ones, and all together. */
  datatype Tally = Tally(free: int, total: int)

  ghost function TallyOf(im: Image): Tally {
    Tally(if |im.lists| > 0 then |im.lists[FREE]| else 0, |im.tiles| - FIRST)
  }

  function Plus(t: Tally, free: int, total: int): Tally {
    Tally(t.free + free, t.total + total)
  }

  /** The operation is complete: quiescent files that show m', with this many more records. */
  ghost predicate Became(im: Image, im': Image, idx': seq<byte>, dat': seq<byte>, m': map<Key, Data>, free: int,
                         total: int) {
    && Quiescent(im', idx', dat')
    && Contents(im') == m'
    && TallyOf(im') == Plus(TallyOf(im), free, total)
    && Shows(idx', dat', m')
  }

  /** The operation is under way, or died: searchable files that show m'. */
  ghost predicate Shown(im': Image, idx': seq<byte>, dat': seq<byte>, m': map<Key, Data>) {
    && Searchable(im', idx', dat')
    && Contents(im') == m'
    && Shows(idx', dat', m')
  }

  lemma BecameShown(im: Image, im': Image, idx': seq<byte>, dat': seq<byte>, m': map<Key, Data>, free: int, total: int)
    requires Became(im, im', idx', dat', m', free, total)
    ensures Shown(im', idx', dat', m') && Quiescent(im', idx', dat')
  {
    hide Shows;
  }

  lemma ShownFacts(im: Image, idx: seq<byte>, dat: seq<byte>, m: map<Key, Data>)
    requires Shown(im, idx, dat, m)
    ensures Searchable(im, idx, dat) && Shows(idx, dat, m)
  {
  }

  lemma ShownNow(im: Image, idx: seq<byte>, dat: seq<byte>)
    requires Searchable(im, idx, dat)
    ensures Indexed(im) && Shown(im, idx, dat, Contents(im)) && Shows(idx, dat, Contents(im))
  {
    hide Shows, Stored, Partitioned, Indexed;
    LookupIsMap(im, idx, dat);
  }

  /** Record j holds the new key and data and points at the chain; only the chain head is left to write. */
  ghost predicate Ready(im: Image, im1: Image, idx1: seq<byte>, dat1: seq<byte>, j: nat, key: Key, data: Data,
                        free: int, total: int) {
    && Indexed(im) && key !in im.index
    && Loose(im1, idx1, dat1, j) && im1.index == im.index && Contents(im1) == Contents(im)
    && 1 + Hash(key) < |im1.next| && j < |im1.next| && im1.next[j] == im1.next[1 + Hash(key)]
    && im1.tiles[j].Rec? && im1.tiles[j].key == key && im1.tiles[j].data == data
    && TallyOf(im1) == Plus(TallyOf(im), free, total)
  }

  lemma Publish(im: Image, im1: Image, idx1: seq<byte>, dat1: seq<byte>, j: nat, key: Key, data: Data, free: int,
                total: int)
    requires Ready(im, im1, idx1, dat1, j, key, data, free, total)
    ensures j <= |im1.tiles| && IdxStart(im1.tiles, j) <= PTR_MAX && Indexed(im)
    ensures |im1.lists| == HEADS <= |im1.next| == |im1.tiles| == |im1.owner| && j < |im1.tiles|
            && !im1.tiles[1 + Hash(key)].Newline?
    ensures var text := PtrText(IdxStart(im1.tiles, j));
            Became(im, Published(im1, key, j, text), WriteAt(idx1, ChainOff(key), text), dat1,
                   MapPut(Contents(im), key, data), free, total)
  {
    hide IdxStart, PtrText, WriteAt, HashPrefix, Searchable, Quiescent, Indexed, Contents, Shows, DatFile;
    LooseFacts(im1, idx1, dat1, j);
    PublishStep(im1, idx1, dat1, j, key);
    var text := PtrText(IdxStart(im1.tiles, j));
    var im', idx' := Published(im1, key, j, text), WriteAt(idx1, ChainOff(key), text);
    QuiescentParts(im', idx', dat1);
    ShownNow(im', idx', dat1);
  }

  lemma LooseFacts(im: Image, idx: seq<byte>, dat: seq<byte>, j: nat)
    requires Loose(im, idx, dat, j)
    ensures FIRST <= j < |im.tiles| == |im.next| == |im.owner| && |im.lists| == HEADS && im.tiles[j].Rec?
    ensures Searchable(im, idx, dat) && IdxStart(im.tiles, j) <= PTR_MAX
  {
    hide IdxStart;
  }

  lemma QuiescentParts(im: Image, idx: seq<byte>, dat: seq<byte>)
    requires Quiescent(im, idx, dat)
    ensures Searchable(im, idx, dat) && dat == DatFile(im.tiles) && Indexed(im) && |im.lists| == HEADS
    ensures |im.next| == |im.tiles| == |im.owner| >= FIRST
  {
    hide IdxStart;
  }

  lemma ReadyFacts(im: Image, im1: Image, idx1: seq<byte>, dat1: seq<byte>, j: nat, key: Key, data: Data, free: int,
                   total: int)
    requires Ready(im, im1, idx1, dat1, j, key, data, free, total)
    ensures j < |im1.tiles| && IdxStart(im1.tiles, j) <= PTR_MAX
  {
    LooseFacts(im1, idx1, dat1, j);
  }

  // ---- Appending ----

  function AppendedDat(dat: seq<byte>, data: Data): seq<byte> {
    WriteAt(dat, |dat|, data + [NEWLINE])
  }

  function AppendedIdx(idx: seq<byte>, dat: seq<byte>, ptr: nat, key: Key, data: Data): seq<byte> {
    WriteAt(idx, |idx|, RecPtrText(ptr) + RecBody(key, |dat|, |data| + 1))
  }

  /** Data that no record names yet is invisible. */
  lemma DataAppended(im: Image, idx: seq<byte>, dat: seq<byte>, data: Data)
    requires Searchable(im, idx, dat)
    ensures Indexed(im) && Shown(im, idx, AppendedDat(dat, data), Contents(im))
  {
    hide Stored, Partitioned, Indexed, Shows;
    assert seq(0, _ => NUL) == [];
    assert AppendedDat(dat, data) == dat + (data + [NEWLINE]);
    TailAppended(im, idx, dat, data + [NEWLINE]);
    ShownNow(im, idx, AppendedDat(dat, data));
  }

  /** So is a record that no chain reaches. */
  lemma RecordAppended(im: Image, idx: seq<byte>, dat: seq<byte>, key: Key, data: Data)
    requires Quiescent(im, idx, dat) && Storable(key, data) && SEP !in key && Indexed(im) && key !in im.index
    requires IDXLEN_MIN <= |RecText(key, |dat|, |data| + 1)| <= IDXLEN_MAX
    ensures 1 + Hash(key) < |im.next| == |im.tiles| && im.next[1 + Hash(key)] < |im.tiles|
    ensures var n := im.next[1 + Hash(key)];
            var idx1, dat1 := AppendedIdx(idx, dat, Addr(im.tiles, n), key, data), AppendedDat(dat, data);
            var im1 := AddRec(im, NewRec(im, dat, key, data), n);
            && Addr(im.tiles, n) <= PTR_MAX
            && Shown(im1, idx1, dat1, Contents(im))
            && IdxStart(im1.tiles, |im.tiles|) == |idx| && |im1.tiles| == |im.tiles| + 1
            && (|idx| <= PTR_MAX ==> Ready(im, im1, idx1, dat1, |im.tiles|, key, data, 0, 1))
  {
    hide IdxStart, RecPtrText, WriteAt, HashPrefix, Searchable, Quiescent, Indexed, Contents, Shows, DatFile, Loose,
      RecText, RecBody;
    QuiescentParts(im, idx, dat);
    AppendStep(im, idx, dat, key, data);
    var n := im.next[1 + Hash(key)];
    var im1 := AddRec(im, NewRec(im, dat, key, data), n);
    ShownNow(im1, AppendedIdx(idx, dat, Addr(im.tiles, n), key, data), AppendedDat(dat, data));
  }

  // ---- Reusing a deleted record ----

  function RefilledDat(dat: seq<byte>, off: nat, data: Data): seq<byte> {
    WriteAt(dat, off, data + [NEWLINE])
  }

  lemma RecordRefilled(im: Image, im0: Image, idx0: seq<byte>, dat: seq<byte>, j: nat, data: Data)
    requires Freed(im, im0, idx0, dat, j) && CString(data) && im0.tiles[j].Rec? && |data| == |im0.tiles[j].data|
    ensures Indexed(im) && Freed(im, im0, idx0, dat, j) && Shown(im0, idx0, dat, Contents(im))
    ensures var dat1 := RefilledDat(dat, im0.tiles[j].datoff, data);
            var im1 := SetData(im0, j, data);
            Shown(im1, idx0, dat1, Contents(im)) && Loose(im1, idx0, dat1, j)
                && IdxStart(im1.tiles, j) == IdxStart(im0.tiles, j)
  {
    hide IdxStart, WriteAt, Searchable, Indexed, Contents, Shows, Loose;
    LooseFacts(im0, idx0, dat, j);
    ShownNow(im0, idx0, dat);
    RefillStep(im0, idx0, dat, j, data);
    LooseFacts(SetData(im0, j, data), idx0, RefilledDat(dat, im0.tiles[j].datoff, data), j);
    ShownNow(SetData(im0, j, data), idx0, RefilledDat(dat, im0.tiles[j].datoff, data));
  }

  lemma RecordRewritten(im: Image, im0: Image, idx0: seq<byte>, dat: seq<byte>, j: nat, key: Key, data: Data)
    requires Freed(im, im0, idx0, dat, j) && Storable(key, data) && SEP !in key && key !in im.index
    requires im0.tiles[j].Rec? && |key| == |im0.tiles[j].key| && |data| == |im0.tiles[j].data|
    ensures var im1, dat1 := SetData(im0, j, data), RefilledDat(dat, im0.tiles[j].datoff, data);
            && 1 + Hash(key) < |im1.next| == |im1.tiles| && j < |im1.tiles| && im1.next[1 + Hash(key)] < |im1.tiles|
            && IDXLEN_MIN <= |RecText(key, im0.tiles[j].datoff, |data| + 1)| <= IDXLEN_MAX
            && var ptr := Addr(im1.tiles, im1.next[1 + Hash(key)]);
            && ptr <= PTR_MAX
            && var im2 := SetRec(im1, j, RecPtrText(ptr), im1.next[1 + Hash(key)], key);
            && var idx2 := WriteAt(idx0, IdxStart(im0.tiles, j),
                                   RecPtrText(ptr) + RecBody(key, im0.tiles[j].datoff, |data| + 1));
            && Indexed(im) && Shown(im2, idx2, dat1, Contents(im))
            && Ready(im, im2, idx2, dat1, j, key, data, -1, 0)
            && IdxStart(im2.tiles, j) == IdxStart(im0.tiles, j)
  {
    hide IdxStart, RecPtrText, WriteAt, HashPrefix, Searchable, Indexed, Contents, Shows, Loose, RecText, RecBody,
      CString;
    assert CString(key) && CString(data);
    RecordRefilled(im, im0, idx0, dat, j, data);
    var im1, dat1 := SetData(im0, j, data), RefilledDat(dat, im0.tiles[j].datoff, data);
    LooseFacts(im1, idx0, dat1, j);
    RewriteStep(im1, idx0, dat1, j, key);
    var n := im1.next[1 + Hash(key)];
    var im2 := SetRec(im1, j, RecPtrText(Addr(im1.tiles, n)), n, key);
    var idx2 := WriteAt(idx0, IdxStart(im0.tiles, j),
                        RecPtrText(Addr(im1.tiles, n)) + RecBody(key, im0.tiles[j].datoff, |data| + 1));
    LooseFacts(im2, idx2, dat1, j);
    ShownNow(im2, idx2, dat1);
    assert j != 1 + Hash(key);
  }

  /** The chain head is untouched by the free list, so a pointer read before still leads the chain. */
  lemma FreedHead(im: Image, im0: Image, idx0: seq<byte>, dat: seq<byte>, j: nat, data: Data, h: nat)
    requires Freed(im, im0, idx0, dat, j) && im0.tiles[j].Rec? && h < NHASH
    requires |SetData(im0, j, data).tiles[j].data| == |im0.tiles[j].data|
    requires 1 + h < |im.next| && im.next[1 + h] <= |im.tiles|
    ensures var im1 := SetData(im0, j, data);
            && 1 + h < |im1.next| && im1.next[1 + h] == im.next[1 + h] <= |im1.tiles|
            && Addr(im1.tiles, im1.next[1 + h]) == Addr(im.tiles, im.next[1 + h])
  {
    hide IdxStart, IdxBytes, Loose, Contents, Indexed;
    var im1 := SetData(im0, j, data);
    SameRecSizes(im0.tiles[j], data);
    SameSizes(im0.tiles, im1.tiles);
  }

  lemma SameRecSizes(t: Tile, data: Data)
    requires t.Rec? && |data| == |t.data|
    ensures |IdxBytes(t.(data := data))| == |IdxBytes(t)| && |DatBytes(t.(data := data))| == |DatBytes(t)|
  {
  }

  // ---- Deleting ----

  function MapDel(m: map<Key, Data>, key: Key): map<Key, Data> {
    m - {key}
  }

  /** Where a found key's record is and which tile's pointer leads to it. */
  ghost predicate Located(im: Image, key: Key, k: nat, ptroff: nat) {
    && 1 + Hash(key) < |im.lists| == HEADS && key in im.index
    && k < |im.lists[1 + Hash(key)]| && im.lists[1 + Hash(key)][k] == im.index[key]
    && Before(1 + Hash(key), im.lists[1 + Hash(key)], k) < |im.tiles|
    && ptroff == IdxStart(im.tiles, Before(1 + Hash(key), im.lists[1 + Hash(key)], k))
  }

  lemma LocatedHere(im: Image, key: Key, k: nat, ptroff: nat)
    requires 1 + Hash(key) < |im.lists| == HEADS && key in im.index
    requires k < |im.lists[1 + Hash(key)]| && im.lists[1 + Hash(key)][k] == im.index[key]
    requires Before(1 + Hash(key), im.lists[1 + Hash(key)], k) < |im.tiles|
    requires ptroff == IdxStart(im.tiles, Before(1 + Hash(key), im.lists[1 + Hash(key)], k))
    ensures Located(im, key, k, ptroff)
  {
  }

  ghost function Pred(im: Image, key: Key, k: nat): nat
    requires 1 + Hash(key) < |im.lists| && k <= |im.lists[1 + Hash(key)]|
  {
    Before(1 + Hash(key), im.lists[1 + Hash(key)], k)
  }

  lemma DeleteBegins(im: Image, idx: seq<byte>, dat: seq<byte>, key: Key, k: nat, ptroff: nat)
    requires Quiescent(im, idx, dat) && Located(im, key, k, ptroff)
    ensures 1 + Hash(key) < |im.lists| && k <= |im.lists[1 + Hash(key)]| && key in im.index
    ensures Pred(im, key, k) <= |im.tiles| && ptroff == IdxStart(im.tiles, Pred(im, key, k))
    ensures FREE < |im.next| && im.next[FREE] <= |im.tiles| && ParsePtr(idx, 0) == Done(Addr(im.tiles, im.next[FREE]))
    ensures Addr(im.tiles, im.next[FREE]) <= PTR_MAX
    ensures AtStage(im, im.index[key], Pred(im, key, k), 0, idx, dat)
    ensures Shaped(im) && IdxStart(im.tiles, FREE) == 0
  {
    hide IdxStart, ParsePtr, Contents, Indexed, Partitioned, Placed, AtStage;
    QuiescentParts(im, idx, dat);
    DeleteStart(im, idx, dat, key, k);
    HeadStart(im, FREE);
    PtrRead(im, idx, dat, FREE);
    InRange(im, idx, dat, FREE);
  }

  lemma StageFacts(im: Image, j: nat, pred: nat, stage: nat, idx: seq<byte>, dat: seq<byte>)
    requires AtStage(im, j, pred, stage, idx, dat)
    ensures FIRST <= j < |im.tiles| == |im.next| && im.tiles[j].Rec? && pred < |im.tiles|
    ensures im.next[j] <= |im.tiles| && im.next[FREE] <= |im.tiles|
    ensures IdxStart(im.tiles, j) <= PTR_MAX && Addr(im.tiles, im.next[j]) <= PTR_MAX
            && Addr(im.tiles, im.next[FREE]) <= PTR_MAX
  {
    hide IdxStart, Deleting, Stored;
  }

  lemma DeleteEnds(im: Image, idx: seq<byte>, dat: seq<byte>, key: Key, k: nat, ptroff: nat, idx': seq<byte>,
                   dat': seq<byte>)
    requires Quiescent(im, idx, dat) && Located(im, key, k, ptroff)
    requires 1 + Hash(key) < |im.lists| && k <= |im.lists[1 + Hash(key)]| && key in im.index
    requires AtStage(im, im.index[key], Pred(im, key, k), 4, idx', dat')
    ensures Indexed(im) && exists im' :: Became(im, im', idx', dat', MapDel(Contents(im), key), 1, 0)
    ensures |idx'| == |idx| && |dat'| == |dat|
  {
    hide IdxStart, Shows, Quiescent, Hash, Indexed, Contents, Deleting;
    QuiescentParts(im, idx, dat);
    DeleteDone(im, idx, dat, key, k, idx', dat');
    var im' := Deleted(im, key, k);
    QuiescentParts(im', idx', dat');
    ShownNow(im', idx', dat');
    assert Became(im, im', idx', dat', MapDel(Contents(im), key), 1, 0);
  }

  lemma StorableFacts(key: Key, data: Data)
    requires Storable(key, data)
    ensures CString(key) && CString(data) && DATLEN_MIN <= |data| + 1 <= DATLEN_MAX
  {
  }

  // ---- Storing ----

  const DB_INSERT: nat := 1
  const DB_REPLACE: nat := 2

  predicate HasBit(flag: nat, bit: nat)
    requires bit > 0
  {
    flag / bit % 2 == 1
  }

  /** The six ways through db_store. */
  datatype Kind = Exists | Missing | Appended | Reused | Moved | Overwrote

  ghost function KindOf(im: Image, key: Key, data: Data, flag: nat): Kind
    requires Indexed(im)
  {
    if key in im.index then
      if HasBit(flag, DB_INSERT) then Exists
      else if |data| != |im.tiles[im.index[key]].data| then Moved
      else Overwrote
    else if HasBit(flag, DB_REPLACE) then Missing
    else if HasFit(im, |key|, |data| + 1) then Reused
    else Appended
  }

  /** Exactly when db_store ends in err_dump or err_quit instead of returning. */
  ghost predicate StoreDies(im: Image, idx: seq<byte>, dat: seq<byte>, key: Key, data: Data, flag: nat)
    requires Indexed(im)
  {
    || !(DATLEN_MIN <= |data| + 1 <= DATLEN_MAX)
    || (KindOf(im, key, data, flag) in {Appended, Moved} && !CanAppend(idx, dat, key, data))
  }

  function ReturnCode(kind: Kind): int {
    match kind
    case Exists => 1
    case Missing => -1
    case _ => 0
  }

  function MapAfter(m: map<Key, Data>, key: Key, data: Data, kind: Kind): map<Key, Data> {
    if kind in {Exists, Missing} then m else MapPut(m, key, data)
  }

  function FreeDelta(kind: Kind): int {
    if kind.Reused? then -1 else if kind.Moved? then 1 else 0
  }

  function TotalDelta(kind: Kind): int {
    if kind in {Appended, Moved} then 1 else 0
  }

  lemma HeadRead(im: Image, idx: seq<byte>, dat: seq<byte>, key: Key)
    requires Quiescent(im, idx, dat)
    ensures 1 + Hash(key) < |im.next| == |im.tiles| && im.next[1 + Hash(key)] <= |im.tiles|
    ensures ParsePtr(idx, ChainOff(key)) == Done(Addr(im.tiles, im.next[1 + Hash(key)]))
  {
    hide IdxStart, ParsePtr, Contents, Indexed, Partitioned, Placed, HashPrefix;
    HeadStart(im, 1 + Hash(key));
    PtrRead(im, idx, dat, 1 + Hash(key));
  }

  lemma ContentsKeys(im: Image, key: Key)
    requires Indexed(im)
    ensures key in Contents(im) <==> key in im.index
    ensures key in im.index ==>
              im.index[key] < |im.tiles| && im.tiles[im.index[key]].Rec?
              && Contents(im)[key] == im.tiles[im.index[key]].data
  {
  }

  lemma Gone(im: Image, m: map<Key, Data>, key: Key)
    requires Indexed(im) && Contents(im) == MapDel(m, key)
    ensures key !in im.index
  {
    ContentsKeys(im, key);
  }

  lemma PutAfterDel(m: map<Key, Data>, key: Key, data: Data)
    ensures MapPut(MapDel(m, key), key, data) == MapPut(m, key, data)
  {
  }

  /** Delete, then append: what a different-size replace amounts to. */
  lemma BecameTwice(im: Image, im1: Image, idx1: seq<byte>, dat1: seq<byte>, im2: Image, idx2: seq<byte>,
                    dat2: seq<byte>,
                    m1: map<Key, Data>, m2: map<Key, Data>, f1: int, t1: int, f2: int, t2: int)
    requires Became(im, im1, idx1, dat1, m1, f1, t1) && Became(im1, im2, idx2, dat2, m2, f2, t2)
    ensures Became(im, im2, idx2, dat2, m2, f1 + f2, t1 + t2)
  {
    hide Quiescent, Contents, Shows;
  }

  lemma BecameSame(im: Image, idx: seq<byte>, dat: seq<byte>)
    requires Quiescent(im, idx, dat)
    ensures Indexed(im) && Became(im, im, idx, dat, Contents(im), 0, 0)
  {
    hide Contents, Shows, Indexed, IdxStart;
    QuiescentParts(im, idx, dat);
    ShownNow(im, idx, dat);
  }

  /** Same-size replace: one write, after which the files show the new map. */
  lemma Overwritten(im: Image, idx: seq<byte>, dat: seq<byte>, key: Key, data: Data)
    requires Quiescent(im, idx, dat) && Indexed(im) && key in im.index && CString(data)
    requires im.index[key] < |im.tiles| && im.tiles[im.index[key]].Rec? && |data| == |im.tiles[im.index[key]].data|
    ensures Became(im, SetData(im, im.index[key], data), idx, RefilledDat(dat, im.tiles[im.index[key]].datoff, data),
                   MapPut(Contents(im), key, data), 0, 0)
  {
    hide Contents, Shows, Indexed, IdxStart, Stored, Partitioned, WriteAt, DatFile;
    LiveRefilled(im, idx, dat, key, data);
    ShownNow(SetData(im, im.index[key], data), idx, RefilledDat(dat, im.tiles[im.index[key]].datoff, data));
  }

  // ---- Writes in place ----

  lemma HeaderThere(im: Image, idx: seq<byte>, dat: seq<byte>)
    requires Stored(im, idx, dat)
    ensures |idx| == IdxStart(im.tiles, |im.tiles|) >= (NHASH + 1) * PTR_SZ + 1
  {
    RecStart(im, |im.tiles|);
  }

  lemma HeaderSize(im: Image, idx: seq<byte>, dat: seq<byte>)
    requires Searchable(im, idx, dat)
    ensures |idx| >= (NHASH + 1) * PTR_SZ + 1
  {
    Basics(im, idx, dat);
    HeaderThere(im, idx, dat);
  }

  lemma PtrInside(im: Image, idx: seq<byte>, dat: seq<byte>, j: nat)
    requires Stored(im, idx, dat) && j < |im.tiles| && !im.tiles[j].Newline?
    ensures IdxStart(im.tiles, j) + PTR_SZ <= |idx|
  {
    hide RecBody;
    assert Placed(im.tiles, im.next, j);
    TileAt(IdxParts(im.tiles), j);
  }

  /** Data of the same length over an extent does not lengthen the file. */
  lemma RefillSize(im: Image, idx: seq<byte>, dat: seq<byte>, j: nat, data: Data)
    requires Stored(im, idx, dat) && FIRST <= j < |im.tiles| && im.tiles[j].Rec? && |data| == |im.tiles[j].data|
    ensures |WriteAt(dat, im.tiles[j].datoff, data + [NEWLINE])| == |dat|
  {
    hide WriteAt;
    DatRead(im, idx, dat, j);
  }

  /** Nor does a record under a key of the same length over a record. */
  lemma RewriteSize(im: Image, idx: seq<byte>, dat: seq<byte>, j: nat, text: seq<byte>, key: Key)
    requires Stored(im, idx, dat) && FIRST <= j < |im.tiles| && im.tiles[j].Rec?
    requires |text| == PTR_SZ && |key| == |im.tiles[j].key|
    ensures |WriteAt(idx, IdxStart(im.tiles, j), text + RecBody(key, im.tiles[j].datoff, |im.tiles[j].data| + 1))|
              == |idx|
  {
    hide WriteAt, IdxStart, RecText;
    var t := im.tiles[j];
    RecRead(im, idx, dat, j);
    SameBodySize(key, t.key, t.datoff, |t.data| + 1);
    PtrSize(im, j);
  }

  lemma PtrSize(im: Image, j: nat)
    requires Shaped(im) && FIRST <= j < |im.tiles| && im.tiles[j].Rec?
    ensures |im.tiles[j].ptr| == PTR_SZ
  {
    assert Placed(im.tiles, im.next, j);
  }

  lemma SameBodySize(a: Key, b: Key, datoff: nat, datlen: nat)
    requires |a| == |b|
    ensures |RecText(a, datoff, datlen)| == |RecText(b, datoff, datlen)|
            && |RecBody(a, datoff, datlen)| == |RecBody(b, datoff, datlen)|
  {
  }

  /** At every stage of a delete the index file has room for both pointers that are still to be written. */
  lemma StageRoom(im: Image, j: nat, pred: nat, stage: nat, idx: seq<byte>, dat: seq<byte>)
    requires AtStage(im, j, pred, stage, idx, dat) && Shaped(im) && pred <= |im.tiles|
    ensures PTR_SZ <= |idx| && IdxStart(im.tiles, pred) + PTR_SZ <= |idx|
  {
    hide Deleting, IdxBytes;
    var im' := Deleting(im, j, pred, stage);
    HeaderThere(im', idx, dat);
    TileRoom(im, pred);
  }

  lemma TileRoom(im: Image, j: nat)
    requires Shaped(im) && j < |im.tiles| && !im.tiles[j].Newline?
    ensures IdxStart(im.tiles, j) + PTR_SZ <= IdxStart(im.tiles, |im.tiles|)
  {
    assert Placed(im.tiles, im.next, j);
    StartOrder(IdxParts(im.tiles), j, |im.tiles|);
  }

  /** Taking a record off the free list leaves the file as long as it was. */
  lemma FreedSize(im: Image, idx: seq<byte>, dat: seq<byte>, im': Image, idx': seq<byte>, j: nat)
    requires Stored(im, idx, dat) && Freed(im, im', idx', dat, j)
    ensures |idx'| == |idx|
  {
    hide IdxStart;
    HeaderThere(im, idx, dat);
    HeaderThere(im', idx', dat);
  }
}
