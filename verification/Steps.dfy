/** What each file write of db_store and db_delete does to a searchable pair of files. */
module Steps {
  import opened Text
  import opened Records
  import opened Links
  import opened Images
  import opened Lookups
  import Tiling

  /** The pointer text that a step writes is a full field and names its target. */
  ghost predicate Names(im: Image, text: seq<byte>, n: nat) {
    && (n == 0 || FIRST <= n < |im.tiles|)
    && |text| == PTR_SZ
    && Atol(text) == Addr(im.tiles, n)
  }

  /** _db_findfree's write: element k leaves the free list. */
  function Taken(im: Image, k: nat, text: seq<byte>): (r: Image)
    requires |im.lists| == HEADS && k < |im.lists[FREE]| && im.lists[FREE][k] < |im.next|
    requires |im.next| == |im.tiles| == |im.owner|
    requires Before(FREE, im.lists[FREE], k) < |im.tiles| && !im.tiles[Before(FREE, im.lists[FREE], k)].Newline?
  {
    var free := im.lists[FREE];
    SetPtr(im, Before(FREE, free, k), text, im.next[free[k]])
    .(owner := im.owner[free[k] := ORPHAN], lists := im.lists[FREE := Without(free, k)])
  }

  lemma FreeTaken(im: Image, idx: seq<byte>, dat: seq<byte>, k: nat, text: seq<byte>)
    requires Searchable(im, idx, dat) && k < |im.lists[FREE]|
    requires im.lists[FREE][k] < |im.next| && Names(im, text, im.next[im.lists[FREE][k]])
    ensures Before(FREE, im.lists[FREE], k) < |im.tiles| && Before(FREE, im.lists[FREE], k) != HEADS
    ensures var im' := Taken(im, k, text);
            Searchable(im', WriteAt(idx, IdxStart(im.tiles, Before(FREE, im.lists[FREE], k)), text), dat)
            && Contents(im') == Contents(im)
    ensures forall i | 0 <= i <= |im.tiles| :: IdxStart(Taken(im, k, text).tiles, i) == IdxStart(im.tiles, i)
  {
    hide RecText, Atol, IdxStart, WriteAt, Hash, IdxFile, DatFile;
    Basics(im, idx, dat);
    var free := im.lists[FREE];
    var pred, j := Before(FREE, free, k), free[k];
    NextOnList(im, FREE, k);
    assert Linked(im.next, FREE, free) && Owned(im.owner, FREE, free);
    PtrWritten(im, idx, dat, pred, text, im.next[j]);
    Unlink(im.next, im.owner, im.lists, FREE, k);
    var im' := Taken(im, k, text);
    RelinkedIndexed(im, im');
  }

  /** Changing pointers and the ownership of records outside the chains disturbs no key. */
  lemma RelinkedIndexed(im: Image, im': Image)
    requires Indexed(im) && |im'.tiles| == |im.tiles| == |im'.owner| && im'.index == im.index
    requires forall j | FIRST <= j < |im.tiles| ::
               im'.tiles[j].Rec? && im'.tiles[j].key == im.tiles[j].key && im'.tiles[j].data == im.tiles[j].data
    requires forall j | FIRST <= j < |im.tiles| ::
               im'.owner[j] == im.owner[j] || (im.owner[j] == FREE && im'.owner[j] == ORPHAN)
    ensures Indexed(im') && Contents(im') == Contents(im)
  {
    hide Hash, Blanks;
    forall j | FIRST <= j < |im.tiles| && Live(im'.owner, j) ensures Live(im.owner, j) {}
  }

  /** An orphan's index record may be rewritten freely. */
  lemma OrphanRewritten(im: Image, idx: seq<byte>, dat: seq<byte>, j: nat, text: seq<byte>, n: nat, key: Key)
    requires Searchable(im, idx, dat) && FIRST <= j < |im.tiles| && im.owner[j] == ORPHAN
    requires Names(im, text, n)
    requires CString(key) && SEP !in key && |key| == |im.tiles[j].key|
    ensures var im' := SetRec(im, j, text, n, key);
            Searchable(im', WriteAt(idx, IdxStart(im.tiles, j), IdxBytes(im.tiles[j].(ptr := text, key := key))), dat)
            && Contents(im') == Contents(im)
    ensures forall i | 0 <= i <= |im.tiles| :: IdxStart(SetRec(im, j, text, n, key).tiles, i) == IdxStart(im.tiles, i)
  {
    hide RecText, Atol, IdxStart, WriteAt, Hash, IdxFile, DatFile, IdxBytes;
    RecWritten(im, idx, dat, j, text, n, key);
    OrphanPoints(im.next, im.owner, im.lists, j, n);
    OrphanIndexed(im, SetRec(im, j, text, n, key), j);
  }

  lemma OrphanIndexed(im: Image, im': Image, o: nat)
    requires Indexed(im) && |im'.tiles| == |im.tiles| && im'.owner == im.owner && im'.index == im.index
    requires FIRST <= o < |im.tiles| && im.owner[o] == ORPHAN
    requires im'.tiles[o].Rec?
    requires forall j | FIRST <= j < |im.tiles| && j != o ::
               im'.tiles[j].Rec? && im'.tiles[j].key == im.tiles[j].key && im'.tiles[j].data == im.tiles[j].data
    ensures Indexed(im') && Contents(im') == Contents(im)
  {
    hide Hash, Blanks;
  }

  /** An orphan's data may be overwritten by data of the same length. */
  lemma OrphanRefilled(im: Image, idx: seq<byte>, dat: seq<byte>, j: nat, data: Data)
    requires Searchable(im, idx, dat) && FIRST <= j < |im.tiles| && im.owner[j] == ORPHAN
    requires CString(data) && |data| == |im.tiles[j].data|
    ensures var im' := SetData(im, j, data);
            var dat' := WriteAt(dat, im.tiles[j].datoff, data + [NEWLINE]);
            Searchable(im', idx, dat') && Contents(im') == Contents(im)
                && (dat == DatFile(im.tiles) ==> dat' == DatFile(im'.tiles))
    ensures forall i | 0 <= i <= |im.tiles| :: IdxStart(SetData(im, j, data).tiles, i) == IdxStart(im.tiles, i)
  {
    hide RecText, Atol, IdxStart, WriteAt, Hash, IdxFile, DatFile, IdxBytes;
    DatWritten(im, idx, dat, j, data);
    OrphanIndexed(im, SetData(im, j, data), j);
  }

  /** Same-size replace: one in-place write of a live record's data. */
  lemma LiveRefilled(im: Image, idx: seq<byte>, dat: seq<byte>, key: Key, data: Data)
    requires Searchable(im, idx, dat) && key in im.index
    requires im.index[key] < |im.tiles| && im.tiles[im.index[key]].Rec?
    requires CString(data) && |data| == |im.tiles[im.index[key]].data|
    ensures var im' := SetData(im, im.index[key], data);
            var dat' := WriteAt(dat, im.tiles[im.index[key]].datoff, data + [NEWLINE]);
            Searchable(im', idx, dat') && Contents(im') == Contents(im)[key := data]
            && (dat == DatFile(im.tiles) ==> dat' == DatFile(im'.tiles))
    ensures forall i | 0 <= i <= |im.tiles| ::
              IdxStart(SetData(im, im.index[key], data).tiles, i) == IdxStart(im.tiles, i)
  {
    hide RecText, Atol, IdxStart, WriteAt, Hash, IdxFile, DatFile, IdxBytes, Blanks, Indexed, Contents, Partitioned,
      Shaped;
    IndexedAt(im, key);
    DatWritten(im, idx, dat, im.index[key], data);
    DataIndexed(im, key, data);
  }

  lemma IndexedAt(im: Image, key: Key)
    requires Indexed(im) && key in im.index
    ensures FIRST <= im.index[key] < |im.tiles|
  {
  }

  lemma DataIndexed(im: Image, key: Key, data: Data)
    requires Indexed(im) && key in im.index && im.index[key] < |im.tiles| && im.tiles[im.index[key]].Rec?
    ensures Indexed(SetData(im, im.index[key], data))
    ensures Contents(SetData(im, im.index[key], data)) == Contents(im)[key := data]
  {
    hide Hash, Blanks;
    var j := im.index[key];
    assert im.owner[j] != FREE;
    forall k | k in im.index && k != key ensures im.index[k] != j {}
  }

  /** Appending data that no record names yet. */
  lemma TailAppended(im: Image, idx: seq<byte>, dat: seq<byte>, more: seq<byte>)
    requires Searchable(im, idx, dat)
    ensures Searchable(im, idx, dat + more)
  {
  }

  /** Appending the record for data that was just appended: it starts as an orphan. */
  lemma OrphanAppended(im: Image, idx: seq<byte>, dat: seq<byte>, t: Tile, n: nat)
    requires Searchable(im, idx, dat) && GoodTile(t, |im.tiles|)
    requires t.datoff == |DatFile(im.tiles)| && dat == DatFile(im.tiles) + DatBytes(t)
    requires Names(im, t.ptr, n)
    ensures var im' := AddRec(im, t, n);
            Searchable(im', idx + IdxBytes(t), dat) && dat == DatFile(im'.tiles) && Contents(im') == Contents(im)
    ensures forall i | 0 <= i <= |im.tiles| :: IdxStart(im.tiles + [t], i) == IdxStart(im.tiles, i)
    ensures IdxStart(im.tiles, |im.tiles|) == |idx|
  {
    hide RecText, Atol, IdxStart, WriteAt, IdxFile, DatFile, IdxBytes, DatBytes, Shaped, Indexed, Contents,
      Partitioned;
    ShapedSizes(im);
    RecAppended(im, idx, dat, t, n);
    OrphanAdded(im.next, im.owner, im.lists, n);
    AddedIndexed(im, t, n);
  }

  lemma ShapedSizes(im: Image)
    requires Shaped(im)
    ensures |im.next| == |im.tiles| >= FIRST
  {
  }

  lemma AddedIndexed(im: Image, t: Tile, n: nat)
    requires Indexed(im) && t.Rec? && |im.tiles| >= FIRST
    ensures Indexed(AddRec(im, t, n)) && Contents(AddRec(im, t, n)) == Contents(im)
  {
    hide Hash, Blanks;
    var im' := AddRec(im, t, n);
    forall j | FIRST <= j < |im'.tiles| && Live(im'.owner, j) ensures j < |im.tiles| && Live(im.owner, j) {}
  }

  /** The last write of an insert: the chain head comes to name the orphan. */
  function Published(im: Image, key: Key, j: nat, text: seq<byte>): Image
    requires |im.lists| == HEADS <= |im.next| == |im.tiles| == |im.owner| && j < |im.tiles|
    requires !im.tiles[1 + Hash(key)].Newline?
  {
    var l := 1 + Hash(key);
    SetPtr(im, l, text, j)
    .(owner := im.owner[j := l], lists := im.lists[l := [j] + im.lists[l]], index := im.index[key := j])
  }

  lemma OrphanPublished(im: Image, idx: seq<byte>, dat: seq<byte>, key: Key, j: nat, text: seq<byte>)
    requires Searchable(im, idx, dat) && key !in im.index
    requires FIRST <= j < |im.tiles| && im.owner[j] == ORPHAN
    requires im.tiles[j].Rec? && im.tiles[j].key == key && im.next[j] == im.next[1 + Hash(key)]
    requires Names(im, text, j)
    ensures var im' := Published(im, key, j, text);
            Searchable(im', WriteAt(idx, IdxStart(im.tiles, 1 + Hash(key)), text), dat)
            && Contents(im') == Contents(im)[key := im.tiles[j].data]
    ensures forall i | 0 <= i <= |im.tiles| :: IdxStart(Published(im, key, j, text).tiles, i) == IdxStart(im.tiles, i)
  {
    hide RecText, Atol, IdxStart, WriteAt, HashPrefix, IdxFile, DatFile, IdxBytes, Blanks;
    Basics(im, idx, dat);
    var l := 1 + Hash(key);
    PtrWritten(im, idx, dat, l, text, j);
    Push(im.next, im.owner, im.lists, l, j);
    PublishedIndexed(im, key, j, text);
  }

  lemma PublishedIndexed(im: Image, key: Key, j: nat, text: seq<byte>)
    requires Indexed(im) && |im.lists| == HEADS < FIRST <= j < |im.next| == |im.tiles| && im.owner[j] == ORPHAN
    requires key !in im.index && im.tiles[j].key == key && !im.tiles[1 + Hash(key)].Newline?
    ensures Indexed(Published(im, key, j, text))
    ensures Contents(Published(im, key, j, text)) == Contents(im)[key := im.tiles[j].data]
  {
    hide HashPrefix;
    var im' := Published(im, key, j, text);
    assert forall i | FIRST <= i < |im.tiles| :: im'.tiles[i] == im.tiles[i];
    InsertedIndexed(im, im', key, j);
  }

  /** Record j went onto the chain of its key: the key is there and nothing else changes. */
  lemma InsertedIndexed(im: Image, im': Image, key: Key, j: nat)
    requires Indexed(im) && key !in im.index
    requires FIRST <= j < |im.tiles| && im.owner[j] == ORPHAN && im.tiles[j].Rec? && im.tiles[j].key == key
    requires |im'.tiles| == |im.tiles| && forall i | FIRST <= i < |im.tiles| :: im'.tiles[i] == im.tiles[i]
    requires im'.owner == im.owner[j := 1 + Hash(key)] && im'.index == im.index[key := j]
    ensures Indexed(im') && Contents(im') == Contents(im)[key := im.tiles[j].data]
  {
    hide Hash, Blanks;
    forall k | k in im.index ensures im.index[k] != j {
      assert im.owner[im.index[k]] == 1 + Hash(k);
    }
    forall i | FIRST <= i < |im.tiles| && Live(im'.owner, i) && i != j ensures Live(im.owner, i) {}
  }

  /** Record j went blank and to the free list: its key is gone and nothing else changed. */
  lemma DeletedIndexed(im: Image, im': Image, key: Key, j: nat)
    requires Indexed(im) && key in im.index && im.index[key] == j
    requires |im'.tiles| == |im.tiles| == |im'.owner|
    requires im'.owner == im.owner[j := FREE] && im'.index == im.index - {key}
    requires im'.tiles[j].Rec? && im'.tiles[j].key == Blanks(|im.tiles[j].key|)
             && im'.tiles[j].data == Blanks(|im.tiles[j].data|)
    requires forall i | FIRST <= i < |im.tiles| && i != j ::
               im'.tiles[i].Rec? && im'.tiles[i].key == im.tiles[i].key && im'.tiles[i].data == im.tiles[i].data
    ensures Indexed(im') && Contents(im') == Contents(im) - {key}
  {
    hide Hash;
    forall k | k in im'.index ensures k in im.index && im.index[k] != j {}
    forall i | FIRST <= i < |im.tiles| && Live(im'.owner, i) ensures i != j && Live(im.owner, i) {}
  }

  // ---- The steps as the operations take them ----

  /** Quiescent but for one orphan: record j is off the free list, or just appended, and not yet
      on its chain. */
  ghost predicate Loose(im: Image, idx: seq<byte>, dat: seq<byte>, j: nat) {
    && Searchable(im, idx, dat)
    && dat == DatFile(im.tiles)
    && FIRST <= j < |im.tiles| && im.owner[j] == ORPHAN
    && (forall i | FIRST <= i < |im.tiles| :: (i != j ==> im.owner[i] != ORPHAN) && IdxStart(im.tiles, i) <= PTR_MAX)
  }

  /** Record j was taken off the free list, and nothing else changed. */
  ghost predicate Freed(im: Image, im': Image, idx': seq<byte>, dat: seq<byte>, j: nat) {
    && Indexed(im) && Loose(im', idx', dat, j)
    && Contents(im') == Contents(im) && im'.index == im.index
    && |im'.tiles| == |im.tiles| && j < |im.tiles| && im'.tiles[j] == im.tiles[j]
    && |im'.lists| == |im.lists| == HEADS && |im'.lists[FREE]| == |im.lists[FREE]| - 1
    && |im'.next| == |im.next| == |im.tiles|
    && (forall l | 1 <= l < HEADS :: im'.next[l] == im.next[l])
    && (forall i | 0 <= i <= |im.tiles| :: IdxStart(im'.tiles, i) == IdxStart(im.tiles, i))
  }

  lemma FreedFacts(im: Image, im': Image, idx': seq<byte>, dat: seq<byte>, j: nat)
    requires Freed(im, im', idx', dat, j)
    ensures Loose(im', idx', dat, j) && j < |im'.tiles| == |im.tiles| && im'.tiles[j] == im.tiles[j]
  {
  }

  /** In range, either pointer text is a full field that names its target. */
  lemma TextNames(im: Image, n: nat)
    requires n == 0 || FIRST <= n < |im.tiles|
    requires Addr(im.tiles, n) <= PTR_MAX
    ensures Names(im, PtrText(Addr(im.tiles, n)), n) && Names(im, RecPtrText(Addr(im.tiles, n)), n)
  {
    hide Padded, Decimal, Atol, Addr;
    PtrTextRoundTrip(Addr(im.tiles, n));
  }

  lemma InRange(im: Image, idx: seq<byte>, dat: seq<byte>, j: nat)
    requires Quiescent(im, idx, dat) || (exists i: nat :: Loose(im, idx, dat, i))
    requires j < |im.tiles|
    ensures |im.next| == |im.tiles| == |im.owner| >= FIRST && |im.lists| == HEADS
    ensures im.next[j] == 0 || FIRST <= im.next[j] < |im.tiles|
    ensures Addr(im.tiles, im.next[j]) <= PTR_MAX
  {
    hide IdxStart;
  }

  lemma TakeStep(im: Image, idx: seq<byte>, dat: seq<byte>, k: nat)
    requires Quiescent(im, idx, dat) && |im.lists| == HEADS && k < |im.lists[FREE]|
    ensures |im.next| == |im.tiles| == |im.owner|
    ensures Before(FREE, im.lists[FREE], k) < |im.tiles| && !im.tiles[Before(FREE, im.lists[FREE], k)].Newline?
    ensures FIRST <= im.lists[FREE][k] < |im.tiles| && im.next[im.lists[FREE][k]] < |im.tiles|
    ensures Addr(im.tiles, im.next[im.lists[FREE][k]]) <= PTR_MAX
    ensures var text := PtrText(Addr(im.tiles, im.next[im.lists[FREE][k]]));
            var im' := Taken(im, k, text);
            && Loose(im', WriteAt(idx, IdxStart(im.tiles, Before(FREE, im.lists[FREE], k)), text), dat,
                     im.lists[FREE][k])
            && Contents(im') == Contents(im) && im'.index == im.index && |im'.tiles| == |im.tiles|
            && |im'.lists[FREE]| == |im.lists[FREE]| - 1
            && (forall i | 0 <= i <= |im.tiles| :: IdxStart(im'.tiles, i) == IdxStart(im.tiles, i))
            && im'.tiles[im.lists[FREE][k]] == im.tiles[im.lists[FREE][k]]
            && (forall l | 1 <= l < HEADS :: im'.next[l] == im.next[l])
  {
    hide IdxStart, PtrText, WriteAt, Hash, IdxFile, DatFile, Stored, Indexed, Partitioned;
    Basics(im, idx, dat);
    NextOnList(im, FREE, k);
    assert Linked(im.next, FREE, im.lists[FREE]) && Owned(im.owner, FREE, im.lists[FREE]) by { FreeListed(im, FREE); }
    var j := im.lists[FREE][k];
    InRange(im, idx, dat, j);
    TextNames(im, im.next[j]);
    FreeTaken(im, idx, dat, k, PtrText(Addr(im.tiles, im.next[j])));
    DatFileSame(im.tiles, Before(FREE, im.lists[FREE], k),
                Taken(im, k, PtrText(Addr(im.tiles, im.next[j]))).tiles[Before(FREE, im.lists[FREE], k)]);
  }

  /** The taken record keeps its own fields and, like all others, its successor's address. */
  lemma TakenAddr(im: Image, im': Image, k: nat)
    requires Shaped(im) && |im.tiles| == |im.next| == |im.owner| && |im.lists| == HEADS && k < |im.lists[FREE]|
    requires Partitioned(im.next, im.owner, im.lists)
    requires im.lists[FREE][k] < |im.next| && Before(FREE, im.lists[FREE], k) < |im.tiles|
    requires !im.tiles[Before(FREE, im.lists[FREE], k)].Newline?
    requires im.next[im.lists[FREE][k]] <= |im.tiles|
    requires im' == Taken(im, k, PtrText(Addr(im.tiles, im.next[im.lists[FREE][k]])))
    requires |im'.tiles| == |im.tiles| && forall i | 0 <= i < |im.tiles| ::
               IdxStart(im'.tiles, i) == IdxStart(im.tiles, i)
    ensures var j := im.lists[FREE][k];
            && im'.next[j] == im.next[j] && |im'.next| == |im.next| && im'.next[j] < |im'.tiles|
            && Addr(im'.tiles, im'.next[j]) == Addr(im.tiles, im.next[j])
            && im'.tiles[j] == im.tiles[j]
  {
    hide IdxStart, PtrText, Placed;
    FreeListed(im, FREE);
    BeforeDistinct(FREE, im.lists[FREE], k, k + 1);
    assert Before(FREE, im.lists[FREE], k + 1) == im.lists[FREE][k];
  }

  lemma FreeListed(im: Image, l: nat)
    requires Partitioned(im.next, im.owner, im.lists) && l < HEADS
    ensures Linked(im.next, l, im.lists[l]) && Owned(im.owner, l, im.lists[l])
  {
  }

  lemma RefillStep(im: Image, idx: seq<byte>, dat: seq<byte>, j: nat, data: Data)
    requires Loose(im, idx, dat, j) && im.tiles[j].Rec?
    requires CString(data) && |data| == |im.tiles[j].data|
    ensures var im' := SetData(im, j, data);
            && Loose(im', idx, WriteAt(dat, im.tiles[j].datoff, data + [NEWLINE]), j)
            && Contents(im') == Contents(im)
            && IdxStart(im'.tiles, j) == IdxStart(im.tiles, j)
  {
    hide IdxStart, WriteAt, Hash, IdxFile, DatFile, Stored, Indexed, Partitioned;
    OrphanRefilled(im, idx, dat, j, data);
  }

  lemma RewriteStep(im: Image, idx: seq<byte>, dat: seq<byte>, j: nat, key: Key)
    requires Loose(im, idx, dat, j) && im.tiles[j].Rec?
    requires CString(key) && SEP !in key && |key| == |im.tiles[j].key|
    ensures 1 + Hash(key) < |im.next| == |im.tiles| && im.next[1 + Hash(key)] < |im.tiles|
    ensures Addr(im.tiles, im.next[1 + Hash(key)]) <= PTR_MAX
    ensures IDXLEN_MIN <= |RecText(key, im.tiles[j].datoff, |im.tiles[j].data| + 1)| <= IDXLEN_MAX
    ensures var n := im.next[1 + Hash(key)];
            var text := RecPtrText(Addr(im.tiles, n));
            var im' := SetRec(im, j, text, n, key);
            && Loose(im', WriteAt(idx, IdxStart(im.tiles, j),
                                  text + RecBody(key, im.tiles[j].datoff, |im.tiles[j].data| + 1)), dat, j)
            && Contents(im') == Contents(im)
            && IdxStart(im'.tiles, j) == IdxStart(im.tiles, j)
  {
    hide IdxStart, RecPtrText, WriteAt, HashPrefix, IdxFile, DatFile, RecText, RecBody, Stored, Indexed, Partitioned;
    Basics(im, idx, dat);
    var n := im.next[1 + Hash(key)];
    InRange(im, idx, dat, 1 + Hash(key));
    TextNames(im, n);
    var text := RecPtrText(Addr(im.tiles, n));
    OrphanRewritten(im, idx, dat, j, text, n, key);
    DatFileSame(im.tiles, j, im.tiles[j].(ptr := text, key := key));
    SameLength(im, j, key);
  }

  lemma SameLength(im: Image, j: nat, key: Key)
    requires Shaped(im) && FIRST <= j < |im.tiles| && |key| == |im.tiles[j].key|
    ensures IDXLEN_MIN <= |RecText(key, im.tiles[j].datoff, |im.tiles[j].data| + 1)| <= IDXLEN_MAX
  {
    assert Placed(im.tiles, im.next, j);
    var t := im.tiles[j];
    assert |RecText(key, t.datoff, |t.data| + 1)| == |RecText(t.key, t.datoff, |t.data| + 1)|;
  }

  lemma PublishStep(im: Image, idx: seq<byte>, dat: seq<byte>, j: nat, key: Key)
    requires Loose(im, idx, dat, j) && key !in im.index
    requires im.tiles[j].Rec? && im.tiles[j].key == key
    requires 1 + Hash(key) < |im.next| && j < |im.next| && im.next[j] == im.next[1 + Hash(key)]
    ensures |im.lists| == HEADS <= |im.next| == |im.tiles| == |im.owner| && !im.tiles[1 + Hash(key)].Newline?
    ensures IdxStart(im.tiles, j) <= PTR_MAX && IdxStart(im.tiles, 1 + Hash(key)) == ChainOff(key)
    ensures var text := PtrText(IdxStart(im.tiles, j));
            var im' := Published(im, key, j, text);
            && Quiescent(im', WriteAt(idx, ChainOff(key), text), dat)
            && Contents(im') == Contents(im)[key := im.tiles[j].data]
  {
    hide IdxStart, PtrText, WriteAt, HashPrefix, IdxFile, DatFile, Stored, Indexed, Partitioned;
    Basics(im, idx, dat);
    var l := 1 + Hash(key);
    HeadStart(im, l);
    TextNames(im, j);
    var text := PtrText(IdxStart(im.tiles, j));
    OrphanPublished(im, idx, dat, key, j, text);
    DatFileSame(im.tiles, l, Head(text));
  }

  /** An append succeeds iff the new record's text has a legal length and its offset fits a pointer. */
  predicate CanAppend(idx: seq<byte>, dat: seq<byte>, key: Key, data: Data) {
    && IDXLEN_MIN <= |RecText(key, |dat|, |data| + 1)| <= IDXLEN_MAX
    && |idx| <= PTR_MAX
  }

  function NewRec(im: Image, dat: seq<byte>, key: Key, data: Data): Tile
    requires 1 + Hash(key) < |im.next| && im.next[1 + Hash(key)] <= |im.tiles|
  {
    Rec(RecPtrText(Addr(im.tiles, im.next[1 + Hash(key)])), key, |dat|, data)
  }

  /** dat is the data file before the new data was appended to it. */
  lemma AppendStep(im: Image, idx: seq<byte>, dat: seq<byte>, key: Key, data: Data)
    requires Quiescent(im, idx, dat)
    requires CString(key) && SEP !in key && CString(data) && DATLEN_MIN <= |data| + 1 <= DATLEN_MAX
    requires IDXLEN_MIN <= |RecText(key, |dat|, |data| + 1)| <= IDXLEN_MAX
    ensures 1 + Hash(key) < |im.next| == |im.tiles| && im.next[1 + Hash(key)] < |im.tiles|
    ensures Addr(im.tiles, im.next[1 + Hash(key)]) <= PTR_MAX
    ensures IdxStart(im.tiles, |im.tiles|) == |idx|
    ensures var n := im.next[1 + Hash(key)];
            var im' := AddRec(im, NewRec(im, dat, key, data), n);
            var idx' := WriteAt(idx, |idx|, RecPtrText(Addr(im.tiles, n)) + RecBody(key, |dat|, |data| + 1));
            var dat' := WriteAt(dat, |dat|, data + [NEWLINE]);
            && Searchable(im', idx', dat') && Contents(im') == Contents(im)
            && (|idx| <= PTR_MAX ==> Loose(im', idx', dat', |im.tiles|))
            && IdxStart(im'.tiles, |im.tiles|) == |idx|
  {
    hide IdxStart, RecPtrText, HashPrefix, IdxFile, DatFile, RecText, RecBody, Stored, Indexed, Partitioned;
    Basics(im, idx, dat);
    var n := im.next[1 + Hash(key)];
    InRange(im, idx, dat, 1 + Hash(key));
    TextNames(im, n);
    var t := NewRec(im, dat, key, data);
    var dat' := WriteAt(dat, |dat|, data + [NEWLINE]);
    assert seq(0, _ => NUL) == [];
    assert dat' == dat + DatBytes(t);
    assert idx + IdxBytes(t) == WriteAt(idx, |idx|, IdxBytes(t));
    TailAppended(im, idx, dat, DatBytes(t));
    OrphanAppended(im, idx, dat', t, n);
  }

  // ---- The four writes of _db_dodelete ----

  /** The image after 1 to 4 of the writes that delete record j, reached through tile pred. The
      lists are not yet relabelled: between the second and the last write the chain is broken. */
  ghost function Deleting(im: Image, j: nat, pred: nat, stage: nat): (r: Image)
    requires FIRST <= j < |im.tiles| == |im.next| && 0 < pred < |im.tiles| && pred != j
    requires im.tiles[j].Rec? && im.tiles[FREE].Head? && !im.tiles[pred].Newline?
    requires im.next[FREE] <= |im.tiles| && im.next[j] <= |im.tiles|
    ensures |r.tiles| == |im.tiles| == |r.next|
    ensures r.tiles[j].Rec? && r.tiles[FREE].Head? && !r.tiles[pred].Newline?
            && r.tiles[pred].Head? == im.tiles[pred].Head?
    ensures forall i | 0 <= i < |im.tiles| && i != j && i != FREE && i != pred :: r.tiles[i] == im.tiles[i]
    ensures im.tiles[pred].Rec? ==> r.tiles[pred].key == im.tiles[pred].key && r.tiles[pred].data == im.tiles[pred].data
    ensures stage > 1 ==> r.tiles[j].key == Blanks(|im.tiles[j].key|) && r.tiles[j].data == Blanks(|im.tiles[j].data|)
    ensures stage > 3 ==> r.next == im.next[j := im.next[FREE]][FREE := j][pred := im.next[j]]
    decreases if stage > 4 then 4 else stage
  {
    hide PtrText, RecPtrText, IdxStart, Addr;
    if stage == 0 then im
    else if stage == 1 then SetData(im, j, Blanks(|im.tiles[j].data|))
    else if stage == 2 then
      SetRec(Deleting(im, j, pred, 1), j, RecPtrText(Addr(im.tiles, im.next[FREE])), im.next[FREE],
             Blanks(|im.tiles[j].key|))
    else if stage == 3 then SetPtr(Deleting(im, j, pred, 2), FREE, PtrText(IdxStart(im.tiles, j)), j)
    else SetPtr(Deleting(im, j, pred, 3), pred, PtrText(Addr(im.tiles, im.next[j])), im.next[j])
  }

  /** What holds of the tiles and files at each stage. */
  ghost predicate AtStage(im: Image, j: nat, pred: nat, stage: nat, idx: seq<byte>, dat: seq<byte>) {
    && FIRST <= j < |im.tiles| == |im.next| && 0 < pred < |im.tiles| && pred != j && pred != HEADS
    && im.tiles[j].Rec? && im.tiles[FREE].Head? && !im.tiles[pred].Newline?
    && (im.next[FREE] == 0 || FIRST <= im.next[FREE] < |im.tiles|)
    && (im.next[j] == 0 || FIRST <= im.next[j] < |im.tiles|)
    && Addr(im.tiles, im.next[FREE]) <= PTR_MAX && IdxStart(im.tiles, j) <= PTR_MAX
    && Addr(im.tiles, im.next[j]) <= PTR_MAX
    && var im' := Deleting(im, j, pred, stage);
    && |im'.tiles| == |im.tiles| == |im'.next|
    && Stored(im', idx, dat) && dat == DatFile(im'.tiles)
    && forall i | 0 <= i <= |im.tiles| :: IdxStart(im'.tiles, i) == IdxStart(im.tiles, i)
  }

  lemma StageText(im: Image, j: nat, pred: nat, stage: nat, idx: seq<byte>, dat: seq<byte>, n: nat)
    requires AtStage(im, j, pred, stage, idx, dat)
    requires n == 0 || FIRST <= n < |im.tiles|
    requires Addr(im.tiles, n) <= PTR_MAX
    ensures var im' := Deleting(im, j, pred, stage);
            Names(im', PtrText(Addr(im.tiles, n)), n) && Names(im', RecPtrText(Addr(im.tiles, n)), n)
  {
    hide Padded, Decimal, Atol, PtrText, RecPtrText, IdxStart, Deleting, Stored;
    TextNames(Deleting(im, j, pred, stage), n);
  }

  lemma Stage1(im: Image, j: nat, pred: nat, idx: seq<byte>, dat: seq<byte>)
    requires AtStage(im, j, pred, 0, idx, dat)
    ensures AtStage(im, j, pred, 1, idx, WriteAt(dat, im.tiles[j].datoff, Blanks(|im.tiles[j].data|) + [NEWLINE]))
  {
    hide IdxStart, WriteAt, IdxFile, DatFile, Stored;
    DatWritten(im, idx, dat, j, Blanks(|im.tiles[j].data|));
  }

  lemma Stage2(im: Image, j: nat, pred: nat, idx: seq<byte>, dat: seq<byte>)
    requires AtStage(im, j, pred, 1, idx, dat)
    requires Shaped(im)
    ensures var t := im.tiles[j];
            var key := Blanks(|t.key|);
            && IDXLEN_MIN <= |RecText(key, t.datoff, |t.data| + 1)| <= IDXLEN_MAX
            && AtStage(im, j, pred, 2,
                 WriteAt(idx, IdxStart(im.tiles, j),
                         RecPtrText(Addr(im.tiles, im.next[FREE])) + RecBody(key, t.datoff, |t.data| + 1)), dat)
  {
    hide IdxStart, WriteAt, IdxFile, DatFile, Stored, RecText, RecBody, RecPtrText, PtrText;
    var im1 := Deleting(im, j, pred, 1);
    StageText(im, j, pred, 1, idx, dat, im.next[FREE]);
    var text, key := RecPtrText(Addr(im.tiles, im.next[FREE])), Blanks(|im.tiles[j].key|);
    RecWritten(im1, idx, dat, j, text, im.next[FREE], key);
    DatFileSame(im1.tiles, j, im1.tiles[j].(ptr := text, key := key));
    SameLength(im, j, key);
  }

  lemma Stage3(im: Image, j: nat, pred: nat, idx: seq<byte>, dat: seq<byte>)
    requires AtStage(im, j, pred, 2, idx, dat)
    ensures AtStage(im, j, pred, 3, WriteAt(idx, IdxStart(im.tiles, FREE), PtrText(IdxStart(im.tiles, j))), dat)
  {
    hide IdxStart, WriteAt, IdxFile, DatFile, Stored, RecText, RecBody, RecPtrText, PtrText;
    var im2, text := Deleting(im, j, pred, 2), PtrText(IdxStart(im.tiles, j));
    StageText(im, j, pred, 2, idx, dat, j);
    PtrWritten(im2, idx, dat, FREE, text, j);
    DatFileSame(im2.tiles, FREE, Head(text));
  }

  lemma Stage4(im: Image, j: nat, pred: nat, idx: seq<byte>, dat: seq<byte>)
    requires AtStage(im, j, pred, 3, idx, dat)
    ensures AtStage(im, j, pred, 4, WriteAt(idx, IdxStart(im.tiles, pred), PtrText(Addr(im.tiles, im.next[j]))), dat)
  {
    hide IdxStart, WriteAt, IdxFile, DatFile, Stored, RecText, RecBody, RecPtrText, PtrText;
    var im3, text := Deleting(im, j, pred, 3), PtrText(Addr(im.tiles, im.next[j]));
    StageText(im, j, pred, 3, idx, dat, im.next[j]);
    PtrWritten(im3, idx, dat, pred, text, im.next[j]);
    DatFileSame(im3.tiles, pred, im3.tiles[pred].(ptr := text));
  }

  /** After the last write the record is relabelled as the new head of the free list. */
  ghost function Deleted(im: Image, key: Key, k: nat): Image
    requires 1 + Hash(key) < |im.lists| == HEADS && k < |im.lists[1 + Hash(key)]|
    requires var l := 1 + Hash(key);
             var j, pred := im.lists[l][k], Before(l, im.lists[l], k);
             && FIRST <= j < |im.tiles| == |im.next| == |im.owner| && 0 < pred < |im.tiles| && pred != j
             && im.tiles[j].Rec? && im.tiles[FREE].Head? && !im.tiles[pred].Newline?
             && im.next[FREE] <= |im.tiles| && im.next[j] <= |im.tiles|
  {
    var l := 1 + Hash(key);
    var list := im.lists[l];
    Deleting(im, list[k], Before(l, list, k), 4)
    .(owner := im.owner[list[k] := FREE],
      lists := im.lists[l := Without(list, k)][FREE := [list[k]] + im.lists[FREE]],
      index := im.index - {key})
  }

  lemma DeleteStart(im: Image, idx: seq<byte>, dat: seq<byte>, key: Key, k: nat)
    requires Quiescent(im, idx, dat) && key in im.index
    requires 1 + Hash(key) < |im.lists| && k < |im.lists[1 + Hash(key)]| && im.lists[1 + Hash(key)][k] == im.index[key]
    ensures AtStage(im, im.index[key], Before(1 + Hash(key), im.lists[1 + Hash(key)], k), 0, idx, dat)
  {
    hide IdxStart, HashPrefix, IdxFile, DatFile, Partitioned;
    Basics(im, idx, dat);
    var l, j := 1 + Hash(key), im.index[key];
    MoveToFree(im.next, im.owner, im.lists, l, k);
    InRange(im, idx, dat, FREE);
    InRange(im, idx, dat, j);
  }

  lemma DeletedSizes(im: Image, j: nat, pred: nat, idx: seq<byte>, dat: seq<byte>, idx': seq<byte>, dat': seq<byte>)
    requires Stored(im, idx, dat) && dat == DatFile(im.tiles)
    requires AtStage(im, j, pred, 4, idx', dat')
    ensures |idx'| == |idx| && |dat'| == |dat|
  {
    hide IdxStart, IdxFile, DatFile, RecPtrText, PtrText, Deleting, IdxBytes;
    var im' := Deleting(im, j, pred, 4);
    forall i | 0 <= i < |im.tiles| ensures |DatBytes(im'.tiles[i])| == |DatBytes(im.tiles[i])| {
      assert i != j && i != FREE && i != pred ==> im'.tiles[i] == im.tiles[i];
    }
    FileLengths(im.tiles, im'.tiles);
  }

  lemma DeleteDone(im: Image, idx: seq<byte>, dat: seq<byte>, key: Key, k: nat, idx': seq<byte>, dat': seq<byte>)
    requires Quiescent(im, idx, dat) && key in im.index
    requires 1 + Hash(key) < |im.lists| == HEADS && k < |im.lists[1 + Hash(key)]|
    requires im.lists[1 + Hash(key)][k] == im.index[key] && |im.owner| == |im.tiles|
    requires AtStage(im, im.index[key], Before(1 + Hash(key), im.lists[1 + Hash(key)], k), 4, idx', dat')
    ensures var im' := Deleted(im, key, k);
            && Quiescent(im', idx', dat') && Contents(im') == Contents(im) - {key}
            && |im'.tiles| == |im.tiles| && im'.index == im.index - {key}
            && |im'.lists[FREE]| == |im.lists[FREE]| + 1
    ensures |idx'| == |idx| && |dat'| == |dat|
  {
    hide IdxStart, HashPrefix, IdxFile, DatFile, RecPtrText, PtrText, Partitioned, Deleting, Blanks, Indexed, Placed,
      DatBytes, IdxBytes;
    Basics(im, idx, dat);
    var l, j := 1 + Hash(key), im.index[key];
    MoveToFree(im.next, im.owner, im.lists, l, k);
    DeletedKeys(im, key, k);
    DeletedSizes(im, j, Before(l, im.lists[l], k), idx, dat, idx', dat');
  }

  lemma DeletedKeys(im: Image, key: Key, k: nat)
    requires Indexed(im) && key in im.index
    requires 1 + Hash(key) < |im.lists| == HEADS && k < |im.lists[1 + Hash(key)]|
    requires var l := 1 + Hash(key);
             var j, pred := im.lists[l][k], Before(l, im.lists[l], k);
             && FIRST <= j < |im.tiles| == |im.next| == |im.owner| && 0 < pred < |im.tiles| && pred != j
             && im.tiles[j].Rec? && im.tiles[FREE].Head? && !im.tiles[pred].Newline?
             && im.next[FREE] <= |im.tiles| && im.next[j] <= |im.tiles|
             && j == im.index[key]
    ensures Indexed(Deleted(im, key, k)) && Contents(Deleted(im, key, k)) == Contents(im) - {key}
  {
    hide HashPrefix, IdxStart, RecPtrText, PtrText, Deleting, Blanks, Indexed;
    var l := 1 + Hash(key);
    var j, pred := im.lists[l][k], Before(l, im.lists[l], k);
    var im' := Deleted(im, key, k);
    forall i | FIRST <= i < |im.tiles| && i != j
      ensures im'.tiles[i].Rec? && im.tiles[i].Rec? && im'.tiles[i].key == im.tiles[i].key
              && im'.tiles[i].data == im.tiles[i].data
    {
      RecTiles(im);
      assert i != pred ==> im'.tiles[i] == im.tiles[i];
    }
    RecTiles(im);
    DeletedIndexed(im, im', key, j);
  }

  lemma RecTiles(im: Image)
    requires Indexed(im)
    ensures forall j | FIRST <= j < |im.tiles| :: im.tiles[j].Rec?
    ensures |im.owner| == |im.tiles|
  {
  }

  lemma FileLengths(ts: seq<Tile>, us: seq<Tile>)
    ensures |IdxFile(ts)| == IdxStart(ts, |ts|) && |IdxFile(us)| == IdxStart(us, |us|)
    ensures |ts| == |us| && (forall j | 0 <= j < |ts| :: |DatBytes(us[j])| == |DatBytes(ts[j])|) ==>
              |DatFile(ts)| == |DatFile(us)|
  {
    if |ts| == |us| && (forall j | 0 <= j < |ts| :: |DatBytes(us[j])| == |DatBytes(ts[j])|) {
      Tiling.StartSame(DatParts(us), DatParts(ts), |ts|);
    }
  }
}
