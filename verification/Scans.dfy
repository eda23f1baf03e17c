/** The sequential scan of db_rewind and db_nextrec. */
module Scans {
  import opened Text
  import opened Records
  import opened Links
  import opened Images
  import opened Lookups
  import opened Effects

  predicate AllBlank(key: Key) {
    forall i | 0 <= i < |key| :: key[i] == SPACE
  }

  lemma BlankMeans(key: Key)
    ensures AllBlank(key) <==> key == Blanks(|key|)
  {
  }

  const FIRST_REC: nat := (NHASH + 1) * PTR_SZ + 1

  datatype Scanned = End | Hit(at: nat, rec: IdxRec) | Dead

  /** The first record from pos on whose key is not all blank. db_nextrec takes the chain pointer
      that _db_readidx returns for a sign of the end when it is negative. */
  function NextLive(idx: seq<byte>, pos: nat): (r: Scanned)
    ensures r.Hit? ==> pos <= r.at < |idx|
    decreases |idx| - pos
  {
    match ParseRec(idx, pos)
    case Eof => End
    case Bad => Dead
    case Read(rec) =>
      if rec.ptr < 0 then End
      else if AllBlank(rec.key) then NextLive(idx, pos + PTR_SZ + IDXLEN_SZ + rec.idxlen) else Hit(pos, rec)
  }

  function After(at: nat, rec: IdxRec): nat {
    at + PTR_SZ + IDXLEN_SZ + rec.idxlen
  }

  /** What db_nextrec returns at pos: None at the end of the file. */
  function NextPair(idx: seq<byte>, dat: seq<byte>, pos: nat): Outcome<Option<(Key, Data)>> {
    match NextLive(idx, pos)
    case End => Done(None)
    case Dead => Fail
    case Hit(_, rec) =>
      match ReadData(dat, rec.datoff, rec.datlen)
      case Fail => Fail
      case Done(data) => Done(Some((rec.key, data)))
  }

  /** All that repeated calls return, up to the None. */
  function ScanFrom(idx: seq<byte>, dat: seq<byte>, pos: nat): Outcome<seq<(Key, Data)>>
    decreases |idx| - pos
  {
    match NextPair(idx, dat, pos)
    case Fail => Fail
    case Done(None) => Done([])
    case Done(Some(pair)) =>
      var hit := NextLive(idx, pos);
      match ScanFrom(idx, dat, After(hit.at, hit.rec))
      case Fail => Fail
      case Done(rest) => Done([pair] + rest)
  }

  /** The live records from tile j on, in file order, but for those whose key is all blank. */
  function LivePairs(ts: seq<Tile>, j: nat): seq<(Key, Data)>
    decreases |ts| - j
  {
    if j >= |ts| then []
    else if ts[j].Rec? && !AllBlank(ts[j].key) then [(ts[j].key, ts[j].data)] + LivePairs(ts, j + 1)
    else LivePairs(ts, j + 1)
  }

  lemma ScanTile(im: Image, idx: seq<byte>, dat: seq<byte>, j: nat)
    requires Stored(im, idx, dat) && FIRST <= j <= |im.tiles|
    ensures j == |im.tiles| ==> IdxStart(im.tiles, j) == |idx| && NextLive(idx, IdxStart(im.tiles, j)) == End
    ensures j < |im.tiles| ==>
              var off, t := IdxStart(im.tiles, j), im.tiles[j];
              && (AllBlank(t.key) ==> NextLive(idx, off) == NextLive(idx, IdxStart(im.tiles, j + 1)))
              && (!AllBlank(t.key) ==>
                    && NextLive(idx, off).Hit?
                    && var hit := NextLive(idx, off);
                    && hit.rec.key == t.key && hit.rec.datoff == t.datoff && hit.rec.datlen == |t.data| + 1
                    && After(hit.at, hit.rec) == IdxStart(im.tiles, j + 1))
  {
    hide AllBlank, ParseRec, RecText, IdxBytes, IdxStart, IdxFile, DatFile, Placed;
    if j < |im.tiles| {
      RecRead(im, idx, dat, j);
      RecLength(im, j);
    } else {
      FileLength(im.tiles);
      EofAtEnd(idx);
    }
  }

  lemma FileLength(ts: seq<Tile>)
    ensures |IdxFile(ts)| == IdxStart(ts, |ts|)
  {
  }

  lemma EofAtEnd(idx: seq<byte>)
    ensures ParseRec(idx, |idx|) == Eof
  {
  }

  lemma RecLength(im: Image, j: nat)
    requires Shaped(im) && FIRST <= j < |im.tiles|
    ensures |IdxBytes(im.tiles[j])|
              == PTR_SZ + IDXLEN_SZ + |RecText(im.tiles[j].key, im.tiles[j].datoff, |im.tiles[j].data| + 1)|
  {
    hide RecText, Decimal, Padded;
    assert Placed(im.tiles, im.next, j);
    LengthField(|RecText(im.tiles[j].key, im.tiles[j].datoff, |im.tiles[j].data| + 1)|);
  }

  /** Scanning from a tile returns every live pair from there on, in file order, and then None. */
  lemma {:induction false} ScanIsLive(im: Image, idx: seq<byte>, dat: seq<byte>, j: nat)
    requires Stored(im, idx, dat) && FIRST <= j <= |im.tiles|
    ensures ScanFrom(idx, dat, IdxStart(im.tiles, j)) == Done(LivePairs(im.tiles, j))
    decreases |im.tiles| - j
  {
    hide AllBlank, NextLive, ReadData, Stored, IdxStart, After;
    ScanTile(im, idx, dat, j);
    if j < |im.tiles| {
      assert im.tiles[j].Rec? by { StoredKinds(im, idx, dat, j); }
      DataReadBack(im, idx, dat, j);
      ScanIsLive(im, idx, dat, j + 1);
    }
  }

  lemma StoredKinds(im: Image, idx: seq<byte>, dat: seq<byte>, j: nat)
    requires Stored(im, idx, dat) && FIRST <= j < |im.tiles|
    ensures im.tiles[j].Rec?
  {
  }

  /** What a pair list looks like from outside: which pairs, and each key only once. */
  ghost predicate Lists(pairs: seq<(Key, Data)>, m: map<Key, Data>) {
    && (forall i, k | 0 <= i < k < |pairs| :: pairs[i].0 != pairs[k].0)
    && (forall i | 0 <= i < |pairs| :: pairs[i].0 in m && m[pairs[i].0] == pairs[i].1)
    && (forall key | key in m :: (key, m[key]) in pairs)
  }

  function NonBlank(m: map<Key, Data>): map<Key, Data> {
    map key | key in m && !AllBlank(key) :: m[key]
  }

  /** The pairs are exactly the non-blank keys whose records lie at tile j or later. */
  ghost predicate PairsFrom(im: Image, pairs: seq<(Key, Data)>, j: nat)
    requires Indexed(im)
  {
    && (forall i, k | 0 <= i < k < |pairs| :: pairs[i].0 != pairs[k].0)
    && (forall i | 0 <= i < |pairs| :: pairs[i].0 in im.index && j <= im.index[pairs[i].0] && !AllBlank(pairs[i].0)
                                    && pairs[i].1 == Contents(im)[pairs[i].0])
    && (forall key | key in im.index && im.index[key] >= j && !AllBlank(key) :: (key, Contents(im)[key]) in pairs)
  }

  lemma {:induction false} LivePairsFrom(im: Image, j: nat)
    requires Indexed(im) && FIRST <= j <= |im.tiles|
    requires forall i | FIRST <= i < |im.tiles| :: im.owner[i] < ORPHAN
    ensures PairsFrom(im, LivePairs(im.tiles, j), j)
    decreases |im.tiles| - j
  {
    hide Hash, AllBlank, PairsFrom, Contents;
    if j < |im.tiles| {
      LivePairsFrom(im, j + 1);
      if AllBlank(im.tiles[j].key) {
        PairSkipped(im, LivePairs(im.tiles, j + 1), j);
      } else {
        BlankIsFree(im, j);
        PairAdded(im, LivePairs(im.tiles, j + 1), j);
      }
    } else {
      PairsEnd(im, j);
    }
  }

  lemma PairsEnd(im: Image, j: nat)
    requires Indexed(im) && j >= |im.tiles|
    ensures PairsFrom(im, [], j)
  {
    hide AllBlank, Contents;
  }

  lemma PairSkipped(im: Image, rest: seq<(Key, Data)>, j: nat)
    requires Indexed(im) && FIRST <= j < |im.tiles| && AllBlank(im.tiles[j].key)
    requires PairsFrom(im, rest, j + 1)
    ensures PairsFrom(im, rest, j)
  {
    hide AllBlank, Contents, Hash;
    forall key | key in im.index && im.index[key] >= j && !AllBlank(key) ensures im.index[key] >= j + 1 {
      assert im.tiles[im.index[key]].key == key;
    }
  }

  lemma PairAdded(im: Image, rest: seq<(Key, Data)>, j: nat)
    requires Indexed(im) && FIRST <= j < |im.tiles| && !AllBlank(im.tiles[j].key) && FREE < im.owner[j] < ORPHAN
    requires PairsFrom(im, rest, j + 1)
    ensures PairsFrom(im, [(im.tiles[j].key, im.tiles[j].data)] + rest, j)
  {
    hide AllBlank, Hash;
    var t := im.tiles[j];
    var pairs := [(t.key, t.data)] + rest;
    assert Live(im.owner, j) && t.key in im.index && im.index[t.key] == j;
    assert forall i | 0 < i < |pairs| :: pairs[i] == rest[i - 1];
    forall key | key in im.index && im.index[key] >= j && !AllBlank(key) ensures (key, Contents(im)[key]) in pairs {
      if im.index[key] == j {
        assert pairs[0] == (key, Contents(im)[key]);
      } else {
        assert (key, Contents(im)[key]) in rest;
      }
    }
  }

  lemma BlankIsFree(im: Image, j: nat)
    requires Indexed(im) && FIRST <= j < |im.tiles| && im.owner[j] < ORPHAN && !AllBlank(im.tiles[j].key)
    ensures FREE < im.owner[j]
  {
  }

  /** After a rewind the scan returns exactly the map, each key once and in file order, without
      the all-blank keys, which the scan takes for deleted records. */
  lemma RewoundScan(im: Image, idx: seq<byte>, dat: seq<byte>)
    requires Quiescent(im, idx, dat)
    ensures Indexed(im) && |im.tiles| >= FIRST
    ensures ScanFrom(idx, dat, FIRST_REC) == Done(LivePairs(im.tiles, FIRST))
    ensures Lists(LivePairs(im.tiles, FIRST), NonBlank(Contents(im)))
  {
    hide ScanFrom, Stored, IdxStart, Partitioned, Hash, LivePairs, Indexed, AllBlank;
    QuiescentParts(im, idx, dat);
    Basics(im, idx, dat);
    RecStart(im, FIRST);
    ScanIsLive(im, idx, dat, FIRST);
    OwnersBound(im);
    LivePairsFrom(im, FIRST);
    IndexRange(im);
    var pairs, m := LivePairs(im.tiles, FIRST), NonBlank(Contents(im));
    ContentsDomain(im);
  }

  lemma ContentsDomain(im: Image)
    requires Indexed(im)
    ensures Contents(im).Keys == im.index.Keys
  {
  }

  lemma OwnersBound(im: Image)
    requires Partitioned(im.next, im.owner, im.lists) && |im.next| == |im.tiles|
    ensures forall j | FIRST <= j < |im.tiles| :: im.owner[j] <= ORPHAN
  {
  }

  lemma IndexRange(im: Image)
    requires Indexed(im)
    ensures forall k | k in im.index :: FIRST <= im.index[k] < |im.tiles|
    ensures forall j | FIRST <= j < |im.tiles| :: im.tiles[j].Rec?
  {
  }
}
