/** What a lookup finds in the bytes of two files, with no memory of how they were written. */
module Lookups {
  import opened Text
  import opened Records
  import opened Links
  import opened Images

  /** Byte offset of the head of a key's chain: the hash table follows the free-list pointer. */
  function ChainAt(h: nat): nat {
    h * PTR_SZ + PTR_SZ
  }

  function ChainOff(key: Key): nat {
    ChainAt(Hash(key))
  }

  datatype Walk = Found(at: nat, rec: IdxRec) | Absent | Broken

  /** The walk of _db_find from a pointer value. Broken covers every err_dump, and also a walk of
      more than fuel records. */
  function Search(idx: seq<byte>, ptr: int, key: Key, fuel: nat): Walk
    decreases fuel
  {
    if ptr == 0 then Absent
    else if ptr < 0 || fuel == 0 then Broken
    else
      match ParseRec(idx, ptr)
      case Eof => Broken
      case Bad => Broken
      case Read(rec) => if rec.key == key then Found(ptr, rec) else Search(idx, rec.ptr, key, fuel - 1)
  }

  /** What _db_readdat returns. */
  function ReadData(dat: seq<byte>, off: nat, len: nat): Outcome<Data> {
    match ReadAt(dat, off, len)
    case None => Fail
    case Some(b) => if len == 0 || b[len - 1] != NEWLINE then Fail else Done(CutAtNul(b[..len - 1]))
  }

  /** What db_fetch returns, as a function of the files. */
  function Lookup(idx: seq<byte>, dat: seq<byte>, key: Key): Outcome<Option<Data>> {
    match ParsePtr(idx, ChainOff(key))
    case Fail => Fail
    case Done(ptr) =>
      match Search(idx, ptr, key, |idx|)
      case Broken => Fail
      case Absent => Done(None)
      case Found(_, rec) =>
        match ReadData(dat, rec.datoff, rec.datlen)
        case Fail => Fail
        case Done(data) => Done(Some(data))
  }

  function MapGet(m: map<Key, Data>, key: Key): Option<Data> {
    if key in m then Some(m[key]) else None
  }

  /** The files show this map to every possible reader. */
  ghost predicate Shows(idx: seq<byte>, dat: seq<byte>, m: map<Key, Data>) {
    forall key :: Lookup(idx, dat, key) == Done(MapGet(m, key))
  }

  /** Every lookup on this chain dies; every other one finds what m says. */
  ghost predicate Spoiled(idx: seq<byte>, dat: seq<byte>, m: map<Key, Data>, h: nat) {
    forall key :: Lookup(idx, dat, key) == if Hash(key) == h then Fail else Done(MapGet(m, key))
  }

  function ChainFrom(list: seq<nat>, k: nat): nat
    requires k <= |list|
  {
    if k < |list| then list[k] else 0
  }

  /** The record of a key lies on the chain of its hash. */
  lemma OnItsChain(im: Image, key: Key) returns (i: nat)
    requires Partitioned(im.next, im.owner, im.lists) && Indexed(im)
    requires key in im.index
    ensures i < |im.lists[1 + Hash(key)]| && im.lists[1 + Hash(key)][i] == im.index[key]
  {
    var list := im.lists[1 + Hash(key)];
    assert im.index[key] in list;
    i :| 0 <= i < |list| && list[i] == im.index[key];
  }

  lemma RecFields(im: Image, idx: seq<byte>, dat: seq<byte>, j: nat)
    requires Stored(im, idx, dat) && FIRST <= j < |im.tiles|
    ensures IdxStart(im.tiles, j) > 0
    ensures var p := ParseRec(idx, IdxStart(im.tiles, j));
            p.Read? && p.rec.ptr == Addr(im.tiles, im.next[j]) && p.rec.key == im.tiles[j].key
            && p.rec.datoff == im.tiles[j].datoff && p.rec.datlen == |im.tiles[j].data| + 1
  {
    RecStart(im, j);
    RecRead(im, idx, dat, j);
  }

  lemma Basics(im: Image, idx: seq<byte>, dat: seq<byte>)
    requires Searchable(im, idx, dat)
    ensures Stored(im, idx, dat) && Shaped(im) && Partitioned(im.next, im.owner, im.lists) && Indexed(im)
    ensures |im.owner| == |im.next| == |im.tiles| >= FIRST && |im.lists| == HEADS
  {
  }

  /** A record on a chain is live, and is the one the index knows for its key. */
  lemma ChainMember(im: Image, l: nat, k: nat)
    requires Partitioned(im.next, im.owner, im.lists) && Indexed(im)
    requires 1 <= l < HEADS && k < |im.lists[l]|
    ensures FIRST <= im.lists[l][k] < |im.tiles|
    ensures var j := im.lists[l][k];
            im.owner[j] == l && im.tiles[j].key in im.index && im.index[im.tiles[j].key] == j
                && 1 + Hash(im.tiles[j].key) == l
  {
    assert Linked(im.next, l, im.lists[l]) && Owned(im.owner, l, im.lists[l]);
    assert Live(im.owner, im.lists[l][k]);
  }

  /** The pointer after element k - 1 of a list (or in its head) names element k, or ends the list. */
  lemma NextOnList(im: Image, l: nat, k: nat)
    requires Partitioned(im.next, im.owner, im.lists)
    requires l < HEADS && k <= |im.lists[l]|
    ensures Before(l, im.lists[l], k) < |im.next|
    ensures im.next[Before(l, im.lists[l], k)] == ChainFrom(im.lists[l], k)
    ensures ChainFrom(im.lists[l], k) == 0 || FIRST <= ChainFrom(im.lists[l], k) < |im.next|
  {
    assert Linked(im.next, l, im.lists[l]);
    assert im.next[Before(l, im.lists[l], k)] == ChainFrom(im.lists[l], k);
  }

  function OffsetAt(offs: seq<nat>, k: nat): nat {
    if k < |offs| then offs[k] else 0
  }

  /** These offsets and records are what following the pointers of a list reads. */
  ghost predicate Spelled(idx: seq<byte>, offs: seq<nat>, recs: seq<IdxRec>) {
    && |offs| == |recs|
    && forall k | 0 <= k < |offs| ::
         offs[k] > 0 && ParseRec(idx, offs[k]) == Read(recs[k]) && recs[k].ptr == OffsetAt(offs, k + 1)
  }

  lemma SpelledAt(idx: seq<byte>, offs: seq<nat>, recs: seq<IdxRec>, k: nat)
    requires Spelled(idx, offs, recs)
    ensures |offs| == |recs|
    ensures k < |offs| ==>
              offs[k] > 0 && ParseRec(idx, offs[k]) == Read(recs[k]) && recs[k].ptr == OffsetAt(offs, k + 1)
  {
  }

  /** A walk over a spelled list stops at the first record with the key. */
  lemma {:induction false} SearchStops(idx: seq<byte>, offs: seq<nat>, recs: seq<IdxRec>, key: Key, k: nat, i: nat,
                                       fuel: nat)
    requires Spelled(idx, offs, recs) && |offs| == |recs|
    requires k <= i <= |offs| <= k + fuel
    requires forall m | k <= m < i :: recs[m].key != key
    requires i < |offs| ==> recs[i].key == key
    ensures Search(idx, OffsetAt(offs, k), key, fuel) == if i < |offs| then Found(offs[i], recs[i]) else Absent
    decreases fuel
  {
    hide ParseRec, Spelled;
    SpelledAt(idx, offs, recs, k);
    if k < i {
      SearchStops(idx, offs, recs, key, k + 1, i, fuel - 1);
    }
  }

  /** What following a list of an image reads. */
  lemma ListSpelled(im: Image, idx: seq<byte>, dat: seq<byte>, l: nat) returns (offs: seq<nat>, recs: seq<IdxRec>)
    requires Searchable(im, idx, dat) && 1 <= l < HEADS
    ensures Spelled(idx, offs, recs) && |offs| == |recs| == |im.lists[l]|
    ensures forall k | 0 <= k < |offs| ::
              FIRST <= im.lists[l][k] < |im.tiles| && offs[k] == IdxStart(im.tiles, im.lists[l][k])
              && recs[k].key == im.tiles[im.lists[l][k]].key && recs[k].datoff == im.tiles[im.lists[l][k]].datoff
              && recs[k].datlen == |im.tiles[im.lists[l][k]].data| + 1
    ensures ParsePtr(idx, IdxStart(im.tiles, l)) == Done(OffsetAt(offs, 0))
  {
    hide ParseRec, ParsePtr, IdxStart, RecText, Partitioned, Stored;
    Basics(im, idx, dat);
    var list := im.lists[l];
    forall k | 0 <= k < |list| ensures FIRST <= list[k] < |im.tiles| { ChainMember(im, l, k); }
    offs := seq(|list|, k requires 0 <= k < |list| => IdxStart(im.tiles, list[k]));
    forall k | 0 <= k < |list| ensures ParseRec(idx, offs[k]).Read? { RecFields(im, idx, dat, list[k]); }
    recs := seq(|list|, k requires 0 <= k < |list| => ParseRec(idx, offs[k]).rec);
    forall k | 0 <= k < |list|
      ensures offs[k] > 0 && recs[k].ptr == OffsetAt(offs, k + 1)
      ensures recs[k].key == im.tiles[list[k]].key && recs[k].datoff == im.tiles[list[k]].datoff
      ensures recs[k].datlen == |im.tiles[list[k]].data| + 1
    {
      RecFields(im, idx, dat, list[k]);
      NextOnList(im, l, k + 1);
    }
    NextOnList(im, l, 0);
    PtrRead(im, idx, dat, l);
  }

  /** i is where on its chain a key's record stands, or the length of the chain if there is none. */
  ghost predicate Position(im: Image, key: Key, i: nat) {
    && 1 + Hash(key) < |im.lists|
    && var list := im.lists[1 + Hash(key)];
    && i <= |list|
    && (i < |list| <==> key in im.index)
    && (i < |list| ==> list[i] == im.index[key])
    && (forall m | 0 <= m < i ::
          FIRST <= list[m] < |im.tiles| && im.tiles[list[m]].Rec? && im.tiles[list[m]].key != key)
    && (i < |list| ==> FIRST <= list[i] < |im.tiles| && im.tiles[list[i]].Rec? && im.tiles[list[i]].key == key)
  }

  lemma PositionTest(im: Image, key: Key, i: nat, k: nat)
    requires Position(im, key, i) && k <= i
    ensures 1 + Hash(key) < |im.lists|
    ensures var list := im.lists[1 + Hash(key)];
            && i <= |list| && (key in im.index <==> i < |list|)
            && (k < |list| ==>
                  list[k] < |im.tiles| && im.tiles[list[k]].Rec? && (im.tiles[list[k]].key == key <==> k == i))
            && (k < |list| && k == i ==> list[k] == im.index[key])
  {
  }

  lemma ChainPosition(im: Image, key: Key) returns (i: nat)
    requires Partitioned(im.next, im.owner, im.lists) && Indexed(im)
    ensures Position(im, key, i)
  {
    var l := 1 + Hash(key);
    var list := im.lists[l];
    forall m | 0 <= m < |list|
      ensures FIRST <= list[m] < |im.tiles|
              && (im.tiles[list[m]].key == key ==> key in im.index && im.index[key] == list[m])
    {
      ChainMember(im, l, m);
    }
    if key in im.index {
      i := OnItsChain(im, key);
      assert Owned(im.owner, l, list);
    } else {
      i := |list|;
    }
  }

  /** A walk stands before element k of list l: home is the place of the pointer that leads there
      and offset is that pointer's value. */
  ghost predicate Standing(im: Image, l: nat, k: nat, home: nat, offset: int) {
    && l < |im.lists| && k <= |im.lists[l]|
    && Before(l, im.lists[l], k) < |im.tiles| && home == IdxStart(im.tiles, Before(l, im.lists[l], k))
    && ChainFrom(im.lists[l], k) < |im.tiles| && offset == Addr(im.tiles, ChainFrom(im.lists[l], k))
    && (offset == 0 <==> k == |im.lists[l]|)
    && (k < |im.lists[l]| ==> FIRST <= im.lists[l][k])
  }

  lemma StandingStart(im: Image, idx: seq<byte>, dat: seq<byte>, l: nat)
    requires Searchable(im, idx, dat) && l < HEADS
    ensures l == 0 ==> IdxStart(im.tiles, l) == 0
    ensures l > 0 ==> IdxStart(im.tiles, l) == ChainAt(l - 1)
    ensures var off := IdxStart(im.tiles, l);
            ParsePtr(idx, off).Done? && Standing(im, l, 0, off, ParsePtr(idx, off).value)
  {
    Basics(im, idx, dat);
    HeadStart(im, l);
    PtrRead(im, idx, dat, l);
    StandingAt(im, idx, dat, l, 0);
  }

  lemma StandingAt(im: Image, idx: seq<byte>, dat: seq<byte>, l: nat, k: nat)
    requires Searchable(im, idx, dat) && l < HEADS && k <= |im.lists[l]|
    ensures Before(l, im.lists[l], k) < |im.tiles| && im.next[Before(l, im.lists[l], k)] < |im.tiles|
    ensures Standing(im, l, k, IdxStart(im.tiles, Before(l, im.lists[l], k)),
                     Addr(im.tiles, im.next[Before(l, im.lists[l], k)]))
  {
    NextOnList(im, l, k);
    if k < |im.lists[l]| {
      assert Linked(im.next, l, im.lists[l]);
      RecStart(im, im.lists[l][k]);
    }
  }

  /** From element k the walk reads that element's record and goes on to element k + 1. */
  lemma StandingNext(im: Image, idx: seq<byte>, dat: seq<byte>, l: nat, k: nat, home: nat, offset: int)
    requires Searchable(im, idx, dat) && l < HEADS && Standing(im, l, k, home, offset) && offset != 0
    ensures k < |im.lists[l]| && FIRST <= im.lists[l][k] < |im.tiles|
            && offset == IdxStart(im.tiles, im.lists[l][k]) > 0
    ensures im.next[im.lists[l][k]] < |im.tiles|
    ensures Standing(im, l, k + 1, offset, Addr(im.tiles, im.next[im.lists[l][k]]))
  {
    StandingAt(im, idx, dat, l, k + 1);
    RecStart(im, im.lists[l][k]);
  }

  lemma StandingFacts(im: Image, l: nat, k: nat, home: nat, offset: int)
    requires Standing(im, l, k, home, offset)
    ensures l < |im.lists| && k <= |im.lists[l]| && (offset == 0 <==> k == |im.lists[l]|)
    ensures Before(l, im.lists[l], k) < |im.tiles| && home == IdxStart(im.tiles, Before(l, im.lists[l], k))
  {
  }

  lemma ChainFitsFile(im: Image, idx: seq<byte>, dat: seq<byte>, l: nat)
    requires Searchable(im, idx, dat) && l < HEADS
    ensures |im.lists[l]| <= |idx|
  {
    assert Linked(im.next, l, im.lists[l]) && Owned(im.owner, l, im.lists[l]);
    DistinctBound(im.lists[l], |im.tiles|);
    StartAtLeast(im, |im.tiles|);
  }

  lemma {:induction false} StartAtLeast(im: Image, j: nat)
    requires Shaped(im) && j <= |im.tiles|
    ensures IdxStart(im.tiles, j) >= j
  {
    if j > 0 {
      StartAtLeast(im, j - 1);
      AddrOrder(im, j - 1, j);
    }
  }

  /** Searchable files show exactly the map that the chains spell out. */
  lemma LookupIsMap(im: Image, idx: seq<byte>, dat: seq<byte>)
    requires Searchable(im, idx, dat)
    ensures Shows(idx, dat, Contents(im))
  {
    hide ParseRec, ParsePtr, RecText, HashPrefix, ReadData, Search, IdxStart, Stored, Partitioned, Spelled;
    Basics(im, idx, dat);
    forall key ensures Lookup(idx, dat, key) == Done(MapGet(Contents(im), key)) {
      var l := 1 + Hash(key);
      HeadStart(im, l);
      var offs, recs := ListSpelled(im, idx, dat, l);
      var i := ChainPosition(im, key);
      ChainFitsFile(im, idx, dat, l);
      SearchStops(idx, offs, recs, key, 0, i, |idx|);
      if key in im.index {
        DataReadBack(im, idx, dat, im.index[key]);
      }
    }
  }

  /** Reading through a record's fields returns its data. */
  lemma DataReadBack(im: Image, idx: seq<byte>, dat: seq<byte>, j: nat)
    requires Stored(im, idx, dat) && FIRST <= j < |im.tiles|
    ensures ReadData(dat, im.tiles[j].datoff, |im.tiles[j].data| + 1) == Done(im.tiles[j].data)
  {
    DatRead(im, idx, dat, j);
    assert Placed(im.tiles, im.next, j);
    var data := im.tiles[j].data;
    assert (data + [NEWLINE])[..|data|] == data;
  }

  /** What the handle's fields say after the record of tile j was read. */
  ghost predicate Loaded(im: Image, j: nat, idxoff: nat, ptrval: int, idxbuf: seq<byte>, datoff: nat, datlen: nat) {
    && FIRST <= j < |im.tiles| == |im.next| && im.next[j] <= |im.tiles| && im.tiles[j].Rec?
    && idxoff == IdxStart(im.tiles, j)
    && ptrval == Addr(im.tiles, im.next[j])
    && idxbuf == im.tiles[j].key
    && datoff == im.tiles[j].datoff && datlen == |im.tiles[j].data| + 1
  }

  lemma LoadedFacts(im: Image, j: nat, idxoff: nat, ptrval: int, idxbuf: seq<byte>, datoff: nat, datlen: nat)
    requires Loaded(im, j, idxoff, ptrval, idxbuf, datoff, datlen)
    ensures FIRST <= j < |im.tiles| == |im.next| && im.next[j] <= |im.tiles| && im.tiles[j].Rec?
    ensures idxbuf == im.tiles[j].key && ptrval == Addr(im.tiles, im.next[j])
    ensures idxoff == IdxStart(im.tiles, j) && datoff == im.tiles[j].datoff && datlen == |im.tiles[j].data| + 1
    ensures |idxbuf| == |im.tiles[j].key|
  {
  }

  // ---- First fit on the free list ----

  predicate Fits(t: Tile, keylen: nat, datlen: nat) {
    t.Rec? && |t.key| == keylen && |t.data| + 1 == datlen
  }

  ghost predicate FitsAt(im: Image, j: nat, keylen: nat, datlen: nat) {
    j < |im.tiles| && Fits(im.tiles[j], keylen, datlen)
  }

  /** Some deleted record has room for exactly this key and data. */
  ghost predicate HasFit(im: Image, keylen: nat, datlen: nat) {
    exists j | FIRST <= j < |im.tiles| && j < |im.owner| :: im.owner[j] == FREE && Fits(im.tiles[j], keylen, datlen)
  }

  /** i is the first place on the free list that fits, or the length of the list if none does. */
  ghost predicate FirstFit(im: Image, keylen: nat, datlen: nat, i: nat) {
    && FREE < |im.lists|
    && i <= |im.lists[FREE]|
    && (forall m | 0 <= m < i :: im.lists[FREE][m] < |im.tiles| && !Fits(im.tiles[im.lists[FREE][m]], keylen, datlen))
    && (i < |im.lists[FREE]| ==> im.lists[FREE][i] < |im.tiles| && Fits(im.tiles[im.lists[FREE][i]], keylen, datlen))
  }

  lemma FitTest(im: Image, keylen: nat, datlen: nat, i: nat, k: nat)
    requires FirstFit(im, keylen, datlen, i) && k <= i
    ensures FREE < |im.lists| && i <= |im.lists[FREE]|
    ensures k < |im.lists[FREE]| ==>
              im.lists[FREE][k] < |im.tiles| && (Fits(im.tiles[im.lists[FREE][k]], keylen, datlen) <==> k == i)
    ensures k < |im.lists[FREE]| && k == i ==> FitsAt(im, im.lists[FREE][k], keylen, datlen)
  {
  }

  lemma {:induction false} SearchFit(im: Image, keylen: nat, datlen: nat, k: nat) returns (i: nat)
    requires FREE < |im.lists| && k <= |im.lists[FREE]|
    requires forall m | 0 <= m < |im.lists[FREE]| :: im.lists[FREE][m] < |im.tiles|
    requires forall m | 0 <= m < k :: !Fits(im.tiles[im.lists[FREE][m]], keylen, datlen)
    ensures FirstFit(im, keylen, datlen, i)
    decreases |im.lists[FREE]| - k
  {
    if k == |im.lists[FREE]| || Fits(im.tiles[im.lists[FREE][k]], keylen, datlen) {
      i := k;
    } else {
      i := SearchFit(im, keylen, datlen, k + 1);
    }
  }

  /** The first fit exists exactly when any deleted record fits. */
  lemma FitExists(im: Image, keylen: nat, datlen: nat) returns (i: nat)
    requires Partitioned(im.next, im.owner, im.lists) && |im.tiles| == |im.next|
    ensures FirstFit(im, keylen, datlen, i) && (i < |im.lists[FREE]| <==> HasFit(im, keylen, datlen))
  {
    var free := im.lists[FREE];
    assert Linked(im.next, FREE, free) && Owned(im.owner, FREE, free);
    i := SearchFit(im, keylen, datlen, 0);
    if i < |free| {
      assert im.owner[free[i]] == FREE;
    }
  }
}
