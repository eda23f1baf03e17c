/** Whole runs of the library from a freshly created database, against a finite map. */
module Runs {
  import opened Text
  import opened Records
  import opened Links
  import opened Images
  import opened Lookups
  import opened Effects
  import opened Scans
  import opened Steps
  import opened Separators
  import opened Database
  import opened LockActs
  import Locking

  datatype Op = StoreOp(key: Key, data: Data, flag: nat) | FetchOp(key: Key) | DeleteOp(key: Key)

  datatype Out = Code(rc: int) | Value(data: Option<Data>)

  /** C strings. */
  predicate Legal(op: Op) {
    CString(op.key) && (op.StoreOp? ==> CString(op.data))
  }

  /** A store that puts a key with a separator into the database: no such key is there already. */
  predicate Spoiling(op: Op) {
    op.StoreOp? && SEP in op.key && !Replacing(op.flag)
  }

  /** The low bit of a flag asks that the key be new, the next that it be there already. */
  predicate Inserting(flag: nat) {
    flag % 2 == 1
  }

  predicate Replacing(flag: nat) {
    flag / 2 % 2 == 1
  }

  lemma FlagBits(flag: nat)
    ensures HasBit(flag, DB_INSERT) <==> Inserting(flag)
    ensures HasBit(flag, DB_REPLACE) <==> Replacing(flag)
  {
  }

  /** What each call should do to a finite map and return. */
  function MapStep(m: map<Key, Data>, op: Op): (map<Key, Data>, Out) {
    match op
    case FetchOp(key) => (m, Value(if key in m then Some(m[key]) else None))
    case DeleteOp(key) => if key in m then (m - {key}, Code(0)) else (m, Code(-1))
    case StoreOp(key, data, flag) =>
      if key in m && Inserting(flag) then (m, Code(1))
      else if key !in m && Replacing(flag) then (m, Code(-1))
      else (m[key := data], Code(0))
  }

  /** The map after a run of calls, and what they returned. */
  function MapRun(ops: seq<Op>): (map<Key, Data>, seq<Out>) {
    if |ops| == 0 then (map[], []) else
      var (m, outs) := MapRun(ops[..|ops| - 1]);
      var (m', out) := MapStep(m, ops[|ops| - 1]);
      (m', outs + [out])
  }

  lemma MapRunSnoc(ops: seq<Op>, n: nat)
    requires n < |ops|
    ensures MapRun(ops[..n + 1]).0 == MapStep(MapRun(ops[..n]).0, ops[n]).0
    ensures MapRun(ops[..n + 1]).1 == MapRun(ops[..n]).1 + [MapStep(MapRun(ops[..n]).0, ops[n]).1]
  {
    assert ops[..n + 1][..n] == ops[..n];
  }

  // ---- What the statistics count ----

  /** The events that the counters of the handle are for. */
  datatype Statistic = DeleteOk | DeleteErr | FetchOk | FetchErr | StoreNew | StoreResized | StoreSameSize | StoreErr

  /** A call with this result, made when the map was m, is one of these events. */
  predicate Is(st: Statistic, m: map<Key, Data>, op: Op, out: Out) {
    match st
    case DeleteOk => op.DeleteOp? && out == Code(0)
    case DeleteErr => op.DeleteOp? && out == Code(-1)
    case FetchOk => op.FetchOp? && out.Value? && out.data.Some?
    case FetchErr => op.FetchOp? && out == Value(None)
    case StoreNew => op.StoreOp? && out == Code(0) && op.key !in m
    case StoreResized => op.StoreOp? && out == Code(0) && op.key in m && |m[op.key]| != |op.data|
    case StoreSameSize => op.StoreOp? && out == Code(0) && op.key in m && |m[op.key]| == |op.data|
    case StoreErr => op.StoreOp? && (out == Code(1) || out == Code(-1))
  }

  function One(b: bool): nat {
    if b then 1 else 0
  }

  /** How often the event occurs in a run of calls with these results. */
  function Times(st: Statistic, ops: seq<Op>, outs: seq<Out>): nat
    requires |ops| == |outs|
  {
    if |ops| == 0 then 0
    else
      var n := |ops| - 1;
      Times(st, ops[..n], outs[..n]) + One(Is(st, MapRun(ops[..n]).0, ops[n], outs[n]))
  }

  /** One call moves every counter of the handle as it should. */
  predicate StatStep(c: Counts, c': Counts, m: map<Key, Data>, op: Op, out: Out) {
    && c'.delok == c.delok + One(Is(DeleteOk, m, op, out))
    && c'.delerr == c.delerr + One(Is(DeleteErr, m, op, out))
    && c'.fetchok == c.fetchok + One(Is(FetchOk, m, op, out))
    && c'.fetcherr == c.fetcherr + One(Is(FetchErr, m, op, out))
    && c'.stor1 + c'.stor2 == c.stor1 + c.stor2 + One(Is(StoreNew, m, op, out))
    && c'.stor3 == c.stor3 + One(Is(StoreResized, m, op, out))
    && c'.stor4 == c.stor4 + One(Is(StoreSameSize, m, op, out))
    && c'.storerr == c.storerr + One(Is(StoreErr, m, op, out))
    && c'.nextrec == c.nextrec
  }

  /** Every counter of the handle but that of db_nextrec is the number of its events in the run. */
  predicate StatsOf(c: Counts, ops: seq<Op>, outs: seq<Out>)
    requires |ops| == |outs|
  {
    && c.delok == Times(DeleteOk, ops, outs) && c.delerr == Times(DeleteErr, ops, outs)
    && c.fetchok == Times(FetchOk, ops, outs) && c.fetcherr == Times(FetchErr, ops, outs)
    && c.stor1 + c.stor2 == Times(StoreNew, ops, outs)
    && c.stor3 == Times(StoreResized, ops, outs) && c.stor4 == Times(StoreSameSize, ops, outs)
    && c.storerr == Times(StoreErr, ops, outs)
  }

  lemma StatsNext(c: Counts, c': Counts, ops: seq<Op>, outs: seq<Out>, n: nat)
    requires n < |ops| && n < |outs| && StatsOf(c, ops[..n], outs[..n])
    requires StatStep(c, c', MapRun(ops[..n]).0, ops[n], outs[n])
    ensures StatsOf(c', ops[..n + 1], outs[..n + 1]) && c'.nextrec == c.nextrec
  {
    hide Is, MapRun;
    var a, b := ops[..n + 1], outs[..n + 1];
    assert a[..n] == ops[..n] && b[..n] == outs[..n] && a[n] == ops[n] && b[n] == outs[n];
  }

  lemma StatsNone(ops: seq<Op>, outs: seq<Out>)
    requires ops == [] && outs == []
    ensures StatsOf(Counts(0, 0, 0, 0, 0, 0, 0, 0, 0, 0), ops, outs)
  {
  }

  /** Each way through db_store moves the counter of what happened. */
  lemma StoreCounts(im: Image, m: map<Key, Data>, key: Key, data: Data, flag: nat, counts: Counts)
    requires Indexed(im) && m == Contents(im)
    ensures var kind := KindOf(im, key, data, flag);
            StatStep(counts, Count(counts, kind), m, StoreOp(key, data, flag), Code(ReturnCode(kind)))
  {
    hide HasFit, HasBit;
  }

  /** So do the two outcomes of a fetch and of a delete. */
  lemma FetchCounts(m: map<Key, Data>, key: Key, c: Counts)
    ensures StatStep(c, if key in m then c.(fetchok := c.fetchok + 1) else c.(fetcherr := c.fetcherr + 1),
                     m, FetchOp(key), Value(MapGet(m, key)))
  {
  }

  lemma DeleteCounts(m: map<Key, Data>, key: Key, c: Counts)
    ensures var rc := if key in m then 0 else -1;
            StatStep(c, if rc == 0 then c.(delok := c.delok + 1)
                     else c.(delerr := c.delerr + 1), m, DeleteOp(key), Code(rc))
  {
  }

  /** The statistics account for every record: those alive, those deleted, and all of them. */
  predicate Conserved(live: nat, tally: Tally, counts: Counts) {
    && live == counts.stor1 + counts.stor2 - counts.delok
    && tally.total == counts.stor1 + counts.stor3
    && tally.free == counts.stor3 + counts.delok - counts.stor2
  }

  lemma {:induction false} PutSize(m: map<Key, Data>, key: Key, data: Data)
    ensures |m[key := data]| == |m| + if key in m then 0 else 1
  {
    assert m[key := data].Keys == m.Keys + {key};
  }

  lemma {:induction false} DelSize(m: map<Key, Data>, key: Key)
    ensures |m - {key}| == |m| - if key in m then 1 else 0
  {
    assert (m - {key}).Keys == m.Keys - {key};
  }

  /** A store that returns does to the map and the statistics what its kind says. */
  lemma StoreStep(im: Image, m: map<Key, Data>, op: Op, tally: Tally, counts: Counts)
    requires Indexed(im) && m == Contents(im) && op.StoreOp?
    requires Conserved(|m|, tally, counts)
    ensures var kind := KindOf(im, op.key, op.data, op.flag);
            var m' := MapAfter(m, op.key, op.data, kind);
            && MapStep(m, op) == (m', Code(ReturnCode(kind)))
            && Conserved(|m'|, Plus(tally, FreeDelta(kind), TotalDelta(kind)), Count(counts, kind))
  {
    hide HasFit, HasBit, Contents, Indexed, Inserting, Replacing;
    FlagBits(op.flag);
    ContentsKeys(im, op.key);
    PutSize(m, op.key, op.data);
  }

  lemma DeleteStep(m: map<Key, Data>, key: Key, tally: Tally, counts: Counts, rc: int)
    requires Conserved(|m|, tally, counts) && rc == if key in m then 0 else -1
    ensures MapStep(m, DeleteOp(key)) == (MapDel(m, key), Code(rc))
    ensures Conserved(|MapDel(m, key)|, Plus(tally, if rc == 0 then 1 else 0, 0),
                      if rc == 0 then counts.(delok := counts.delok + 1) else counts.(delerr := counts.delerr + 1))
  {
    DelSize(m, key);
    DelAbsent(m, key);
  }

  lemma BecameTally(im: Image, im': Image, idx': seq<byte>, dat': seq<byte>, m': map<Key, Data>, free: int, total: int)
    requires Became(im, im', idx', dat', m', free, total)
    ensures Quiescent(im', idx', dat') && Indexed(im') && Contents(im') == m'
            && TallyOf(im') == Plus(TallyOf(im), free, total)
  {
    hide Shows, IdxStart;
  }

  /** Only a spoiling store spoils. */
  lemma SpoilsIff(im: Image, idx: seq<byte>, dat: seq<byte>, key: Key, data: Data, flag: nat)
    requires Quiescent(im, idx, dat) && Indexed(im)
    ensures Spoils(key, KindOf(im, key, data, flag)) <==> Spoiling(StoreOp(key, data, flag))
    ensures Spoiling(StoreOp(key, data, flag)) ==> MapStep(Contents(im), StoreOp(key, data, flag)).1 == Code(0)
    ensures Spoiling(StoreOp(key, data, flag)) ==> ReturnCode(KindOf(im, key, data, flag)) == 0
  {
    hide HasFit, HasBit, Indexed, Contents, Inserting, Replacing;
    FlagBits(flag);
    QuiescentParts(im, idx, dat);
    KeysReadable(im, idx, dat);
    ContentsKeys(im, key);
  }

  method ApplyStore(db: DB, key: Key, data: Data, flag: nat) returns (out: Outcome<Out>)
    requires Quiescent(db.im, db.idx, db.dat) && Indexed(db.im) && Legal(StoreOp(key, data, flag))
    requires Conserved(|Contents(db.im)|, TallyOf(db.im), db.counts)
    modifies db
    ensures Indexed(old(db.im))
    ensures out.Done? ==> out.value == MapStep(Contents(old(db.im)), StoreOp(key, data, flag)).1
    ensures out.Done? ==> StatStep(old(db.counts), db.counts, Contents(old(db.im)), StoreOp(key, data, flag), out.value)
    ensures out.Done? && Spoiling(StoreOp(key, data, flag)) ==> Spoiled(db.idx, db.dat, Contents(old(db.im)), Hash(key))
    ensures out.Done? && !Spoiling(StoreOp(key, data, flag)) ==>
              && Quiescent(db.im, db.idx, db.dat) && Indexed(db.im)
              && Contents(db.im) == MapStep(Contents(old(db.im)), StoreOp(key, data, flag)).0
              && Conserved(|Contents(db.im)|, TallyOf(db.im), db.counts)
              && TallyOf(db.im).total <= TallyOf(old(db.im)).total + 1
    ensures out.Fail? <==> StoreDies(old(db.im), old(db.idx), old(db.dat), key, data, flag)
  {
    hide Quiescent, Indexed, Contents, Became, Conserved, TallyOf, StoreDies, KindOf, MapDel, Shown, Spoiled, Spoils,
      StatStep,
      Spoiling, Hash;
    ghost var I, m := db.im, Contents(db.im);
    SpoilsIff(I, db.idx, db.dat, key, data, flag);
    StoreStep(I, m, StoreOp(key, data, flag), TallyOf(I), db.counts);
    StoreCounts(I, m, key, data, flag, db.counts);
    var r := db.Store(key, data, flag);
    if r.Fail? {
      return Fail;
    }
    ghost var kind := KindOf(I, key, data, flag);
    if !Spoils(key, kind) {
      BecameTally(I, db.im, db.idx, db.dat, MapAfter(m, key, data, kind), FreeDelta(kind), TotalDelta(kind));
    }
    out := Done(Code(r.value));
  }

  method ApplyFetch(db: DB, key: Key) returns (out: Outcome<Out>)
    requires Quiescent(db.im, db.idx, db.dat) && Indexed(db.im)
    requires Conserved(|Contents(db.im)|, TallyOf(db.im), db.counts)
    modifies db
    ensures Indexed(old(db.im)) && out == Done(MapStep(Contents(old(db.im)), FetchOp(key)).1)
    ensures StatStep(old(db.counts), db.counts, Contents(old(db.im)), FetchOp(key), out.value)
    ensures db.im == old(db.im) && Quiescent(db.im, db.idx, db.dat)
    ensures Conserved(|Contents(db.im)|, TallyOf(db.im), db.counts)
  {
    hide Quiescent, Indexed, Contents, Conserved, TallyOf, StatStep, Lookup, Chained, ChainOff;
    ghost var m := Contents(db.im);
    FetchCounts(m, key, db.counts);
    var r := db.Fetch(key);
    FetchConserved(|m|, TallyOf(db.im), old(db.counts), db.counts);
    out := Done(Value(r.value));
  }

  method ApplyDelete(db: DB, key: Key) returns (out: Outcome<Out>)
    requires Quiescent(db.im, db.idx, db.dat) && Indexed(db.im)
    requires Conserved(|Contents(db.im)|, TallyOf(db.im), db.counts)
    modifies db
    ensures Indexed(old(db.im)) && out == Done(MapStep(Contents(old(db.im)), DeleteOp(key)).1)
    ensures StatStep(old(db.counts), db.counts, Contents(old(db.im)), DeleteOp(key), out.value)
    ensures Quiescent(db.im, db.idx, db.dat) && Indexed(db.im)
    ensures Contents(db.im) == MapStep(Contents(old(db.im)), DeleteOp(key)).0
    ensures Conserved(|Contents(db.im)|, TallyOf(db.im), db.counts)
    ensures TallyOf(db.im).total == TallyOf(old(db.im)).total
  {
    hide Quiescent, Indexed, Contents, Became, Conserved, TallyOf, MapDel, StatStep;
    ghost var I, m := db.im, Contents(db.im);
    DeleteCounts(m, key, db.counts);
    DeleteStep(m, key, TallyOf(I), db.counts, if key in m then 0 else -1);
    var rc := db.Delete(key);
    BecameTally(I, db.im, db.idx, db.dat, MapDel(m, key), if rc == 0 then 1 else 0, 0);
    out := Done(Code(rc));
  }

  /** One call on a handle does what the same call does to the map; except that a spoiling store,
      which returns as it should, leaves its chain dead and nothing stored. */
  method Apply(db: DB, op: Op) returns (out: Outcome<Out>)
    requires Quiescent(db.im, db.idx, db.dat) && Indexed(db.im) && Legal(op)
    requires Conserved(|Contents(db.im)|, TallyOf(db.im), db.counts)
    modifies db
    ensures Indexed(old(db.im))
    ensures out.Done? ==> out.value == MapStep(Contents(old(db.im)), op).1
    ensures out.Done? ==> StatStep(old(db.counts), db.counts, Contents(old(db.im)), op, out.value)
    ensures out.Done? && Spoiling(op) ==> Spoiled(db.idx, db.dat, Contents(old(db.im)), Hash(op.key))
    ensures out.Done? && !Spoiling(op) ==>
              && Quiescent(db.im, db.idx, db.dat) && Indexed(db.im)
              && Contents(db.im) == MapStep(Contents(old(db.im)), op).0
              && Conserved(|Contents(db.im)|, TallyOf(db.im), db.counts)
              && TallyOf(db.im).total <= TallyOf(old(db.im)).total + if op.StoreOp? then 1 else 0
    ensures out.Fail? <==> op.StoreOp? && StoreDies(old(db.im), old(db.idx), old(db.dat), op.key, op.data, op.flag)
  {
    hide Quiescent, Indexed, Contents, Conserved, TallyOf, StoreDies, Spoiled, Hash, StatStep;
    match op
    case FetchOp(key) => out := ApplyFetch(db, key);
    case DeleteOp(key) => out := ApplyDelete(db, key);
    case StoreOp(key, data, flag) => out := ApplyStore(db, key, data, flag);
  }

  lemma FetchConserved(live: nat, tally: Tally, before: Counts, after: Counts)
    requires Conserved(live, tally, before)
    requires after == before.(fetchok := before.fetchok + 1) || after == before.(fetcherr := before.fetcherr + 1)
    ensures Conserved(live, tally, after)
  {
  }

  // ---- When no store dies ----

  const HEADER_SZ := (NHASH + 1) * PTR_SZ + 1
  const RECORD_MAX := PTR_SZ + IDXLEN_SZ + IDXLEN_MAX

  function Stores(ops: seq<Op>): nat {
    if |ops| == 0 then 0 else Stores(ops[..|ops| - 1]) + if ops[|ops| - 1].StoreOp? then 1 else 0
  }

  /** A store of a key and data of ordinary lengths. */
  predicate Modest(op: Op) {
    op.StoreOp? ==> 0 < |op.key| <= IDXLEN_MAX - 13 && DATLEN_MIN <= |op.data| + 1 <= DATLEN_MAX
  }

  /** So few stores that the index file stays within the pointer range however long their records are. */
  predicate Fits(ops: seq<Op>) {
    (forall op | op in ops :: Modest(op)) && HEADER_SZ + RECORD_MAX * Stores(ops) <= PTR_MAX
  }

  lemma {:induction false} StoresGrow(ops: seq<Op>, n: nat)
    requires n <= |ops|
    ensures Stores(ops[..n]) <= Stores(ops)
    decreases |ops|
  {
    if n < |ops| {
      assert ops[..|ops| - 1][..n] == ops[..n];
      StoresGrow(ops[..|ops| - 1], n);
    } else {
      assert ops[..n] == ops;
    }
  }

  lemma StoresSnoc(ops: seq<Op>, n: nat)
    requires n < |ops|
    ensures Stores(ops[..n + 1]) == Stores(ops[..n]) + if ops[n].StoreOp? then 1 else 0
  {
    assert ops[..n + 1][..n] == ops[..n];
  }

  /** How large a tile can be, in either file. */
  lemma TileBound(im: Image, j: nat)
    requires Shaped(im) && j < |im.tiles|
    ensures |IdxBytes(im.tiles[j])| <= if j < HEADS then PTR_SZ else if j == HEADS then 1 else RECORD_MAX
    ensures |DatBytes(im.tiles[j])| <= if j < FIRST then 0 else DATLEN_MAX
  {
    hide RecText;
    assert Placed(im.tiles, im.next, j);
    var t := im.tiles[j];
    if j >= FIRST {
      LengthField(|RecText(t.key, t.datoff, |t.data| + 1)|);
    }
  }

  lemma StartNext(ts: seq<Tile>, j: nat)
    requires j < |ts|
    ensures IdxStart(ts, j + 1) == IdxStart(ts, j) + |IdxBytes(ts[j])|
    ensures DatStart(ts, j + 1) == DatStart(ts, j) + |DatBytes(ts[j])|
  {
    hide IdxBytes, DatBytes;
  }

  /** Where a tile can begin at the latest in the index file. */
  function LatestIdx(i: nat): int {
    if i <= HEADS then PTR_SZ * i else HEADER_SZ + RECORD_MAX * (i - FIRST)
  }

  /** And where its data can begin in the data file. */
  function LatestDat(i: nat): int {
    if i <= FIRST then 0 else DATLEN_MAX * (i - FIRST)
  }

  lemma LatestNext(i: nat)
    ensures LatestIdx(i + 1) == LatestIdx(i) + if i < HEADS then PTR_SZ else if i == HEADS then 1 else RECORD_MAX
    ensures LatestDat(i + 1) == LatestDat(i) + if i < FIRST then 0 else DATLEN_MAX
    ensures LatestIdx(0) == 0 && LatestDat(0) == 0
  {
  }

  lemma {:induction false} StartBound(im: Image, i: nat)
    requires Shaped(im) && i <= |im.tiles|
    ensures IdxStart(im.tiles, i) <= LatestIdx(i) && DatStart(im.tiles, i) <= LatestDat(i)
  {
    hide Shaped, IdxBytes, DatBytes, LatestIdx, LatestDat;
    if i == 0 {
      LatestNext(0);
    } else {
      hide IdxStart, DatStart;
      StartBound(im, i - 1);
      TileBound(im, i - 1);
      StartNext(im.tiles, i - 1);
      LatestNext(i - 1);
    }
  }

  lemma RoomToAppend(im: Image, idx: seq<byte>, dat: seq<byte>, op: Op)
    requires Quiescent(im, idx, dat) && op.StoreOp? && Modest(op) && Legal(op)
    requires HEADER_SZ + RECORD_MAX * (TallyOf(im).total + 1) <= PTR_MAX
    ensures CanAppend(idx, dat, op.key, op.data)
  {
    hide RecText, Partitioned, Indexed;
    StartBound(im, |im.tiles|);
    assert |idx| == IdxStart(im.tiles, |im.tiles|) && |dat| == DatStart(im.tiles, |im.tiles|);
    RecTextSize(op.key, |dat|, |op.data| + 1);
  }

  lemma RecTextSize(key: Key, datoff: nat, datlen: nat)
    requires datoff <= PTR_MAX && datlen <= DATLEN_MAX
    ensures |key| + 5 <= |RecText(key, datoff, datlen)| <= |key| + 13
  {
    hide Decimal;
    DecimalWidth(datoff, 6);
    DecimalWidth(datlen, 4);
    assert Pow10(3) == 1000;
    assert Pow10(6) == 1000000 && Pow10(4) == 10000;
    DecimalSome(datoff);
    DecimalSome(datlen);
  }

  lemma DecimalSome(n: nat)
    ensures |Decimal(n)| > 0
  {
  }

  lemma RoomToStore(im: Image, idx: seq<byte>, dat: seq<byte>, op: Op)
    requires Quiescent(im, idx, dat) && Indexed(im) && op.StoreOp? && Modest(op) && Legal(op)
    requires HEADER_SZ + RECORD_MAX * (TallyOf(im).total + 1) <= PTR_MAX
    ensures !StoreDies(im, idx, dat, op.key, op.data, op.flag)
  {
    hide Quiescent, CanAppend;
    RoomToAppend(im, idx, dat, op);
  }

  /** Any run from a fresh database: every call returns what the map says, up to a store that
      dies, as none does when the run fits, or up to and including the first spoiling store. After
      one of those all lookups on its chain die and the others see the map of before it; otherwise
      the files hold the map, the statistics account for every record, and a scan returns exactly
      the map, each key once, but for all-blank keys. */
  method RunAndScan(ops: seq<Op>) returns (db: DB, outs: seq<Out>, pairs: seq<(Key, Data)>)
    requires forall op | op in ops :: Legal(op)
    ensures |outs| <= |ops| && outs == MapRun(ops[..|outs|]).1
    ensures forall k | 0 <= k < |outs| - 1 :: !Spoiling(ops[k])
    ensures |outs| < |ops| ==> SpoiltLast(ops, |outs|) || (ops[|outs|].StoreOp? && !Fits(ops))
    ensures SpoiltLast(ops, |outs|) ==>
              Spoiled(db.idx, db.dat, MapRun(ops[..|outs| - 1]).0, Hash(ops[|outs| - 1].key))
    ensures |outs| == |ops| && !SpoiltLast(ops, |outs|) ==>
              && Quiescent(db.im, db.idx, db.dat) && Indexed(db.im) && Contents(db.im) == MapRun(ops).0
              && Conserved(|MapRun(ops).0|, TallyOf(db.im), db.counts)
              && StatsOf(db.counts, ops, outs) && db.counts.nextrec == |pairs|
              && Lists(pairs, NonBlank(MapRun(ops).0))
  {
    hide Quiescent, Indexed, Contents, Conserved, TallyOf, StoreDies, Legal, MapStep, Lists, NonBlank, NextPair,
      ScanFrom, NextLive, After, Spoiled, Spoiling, Hash, Fits, MapRun, Stores, SpoiltLast, StatsOf, StatStep;
    db := new DB.Open([], [], true, Creation.FreshImage());
    outs, pairs := [], [];
    var n := 0;
    NoRun(ops);
    FreshConserved(db.im, db.counts);
    StatsNone(ops[..0], outs);
    while n < |ops|
      invariant n == |outs| <= |ops| && outs == MapRun(ops[..n]).1
      invariant Quiescent(db.im, db.idx, db.dat) && Indexed(db.im) && Contents(db.im) == MapRun(ops[..n]).0
      invariant Conserved(|Contents(db.im)|, TallyOf(db.im), db.counts)
      invariant TallyOf(db.im).total <= Stores(ops[..n])
      invariant forall k | 0 <= k < n :: !Spoiling(ops[k])
      invariant StatsOf(db.counts, ops[..n], outs) && db.counts.nextrec == 0
      invariant fresh(db)
    {
      MapRunSnoc(ops, n);
      StoresSnoc(ops, n);
      Roomy(ops, n, db.im, db.idx, db.dat);
      ghost var before, counted := ops[..n], db.counts;
      var out := Apply(db, ops[n]);
      if out.Fail? {
        NoneSpoilt(ops, n);
        return;
      }
      outs, n := outs + [out.value], n + 1;
      assert outs[..n - 1] == outs[..|outs| - 1] && outs[..n] == outs;
      StatsNext(counted, db.counts, ops, outs, n - 1);
      LastCall(ops, n);
      if Spoiling(ops[n - 1]) {
        assert ops[..|outs| - 1] == before;
        return;
      }
    }
    NoneSpoilt(ops, n);
    assert ops[..n] == ops;
    RewoundScan(db.im, db.idx, db.dat);
    ghost var counts := db.counts;
    pairs := ScanAll(db);
    ScanConserved(|Contents(db.im)|, TallyOf(db.im), counts, db.counts);
    ScanCounted(counts, db.counts, ops, outs);
  }

  /** The last of the first n calls is a spoiling store. */
  predicate SpoiltLast(ops: seq<Op>, n: nat) {
    0 < n <= |ops| && Spoiling(ops[n - 1])
  }

  lemma NoRun(ops: seq<Op>)
    ensures MapRun(ops[..0]) == (map[], []) && Stores(ops[..0]) == 0
    ensures !SpoiltLast(ops, 0)
  {
  }

  lemma LastCall(ops: seq<Op>, n: nat)
    requires 0 < n <= |ops|
    ensures SpoiltLast(ops, n) <==> Spoiling(ops[n - 1])
  {
  }

  lemma NoneSpoilt(ops: seq<Op>, n: nat)
    requires n <= |ops| && forall k | 0 <= k < n :: !Spoiling(ops[k])
    ensures !SpoiltLast(ops, n)
  {
  }

  /** In a run that fits the next store does not die. */
  lemma Roomy(ops: seq<Op>, n: nat, im: Image, idx: seq<byte>, dat: seq<byte>)
    requires n < |ops| && Quiescent(im, idx, dat) && Indexed(im) && TallyOf(im).total <= Stores(ops[..n])
             && Legal(ops[n])
    ensures ops[n].StoreOp? && Fits(ops) ==> !StoreDies(im, idx, dat, ops[n].key, ops[n].data, ops[n].flag)
  {
    hide Quiescent, Indexed, TallyOf, StoreDies, Legal, Modest;
    StoresSnoc(ops, n);
    StoresGrow(ops, n + 1);
    if ops[n].StoreOp? && Fits(ops) {
      RoomToStore(im, idx, dat, ops[n]);
    }
  }

  lemma ScanCounted(before: Counts, after: Counts, ops: seq<Op>, outs: seq<Out>)
    requires |ops| == |outs| && StatsOf(before, ops, outs) && after == before.(nextrec := after.nextrec)
    ensures StatsOf(after, ops, outs)
  {
  }

  lemma ScanConserved(live: nat, tally: Tally, before: Counts, after: Counts)
    requires Conserved(live, tally, before) && after == before.(nextrec := after.nextrec)
    ensures Conserved(live, tally, after)
  {
  }

  lemma FreshConserved(im: Image, counts: Counts)
    requires Indexed(im) && Contents(im) == map[] && TallyOf(im) == Tally(0, 0)
             && counts == Counts(0, 0, 0, 0, 0, 0, 0, 0, 0, 0)
    ensures Conserved(|Contents(im)|, TallyOf(im), counts)
  {
  }

  /** Rewind, then db_nextrec until it returns NULL. */
  method ScanAll(db: DB) returns (pairs: seq<(Key, Data)>)
    requires ScanFrom(db.idx, db.dat, FIRST_REC).Done?
    modifies db
    ensures Done(pairs) == ScanFrom(old(db.idx), old(db.dat), FIRST_REC)
    ensures db.im == old(db.im) && db.idx == old(db.idx) && db.dat == old(db.dat)
    ensures db.counts == old(db.counts).(nextrec := old(db.counts).nextrec + |pairs|)
  {
    hide NextPair, NextLive, ScanFrom, After, ScansOn;
    ghost var idx, dat := db.idx, db.dat;
    db.Rewind();
    pairs := [];
    ScanBegins(idx, dat);
    while true
      invariant db.idx == idx && db.dat == dat && db.im == old(db.im)
      invariant db.counts == old(db.counts).(nextrec := old(db.counts).nextrec + |pairs|)
      invariant ScansOn(idx, dat, pairs, db.pos)
      decreases |idx| - db.pos
    {
      ScanStep(idx, dat, pairs, db.pos);
      var r := db.NextRec();
      if r.value.None? {
        break;
      }
      pairs := pairs + [r.value.value];
    }
  }

  /** These pairs and those that are left make up the scan. */
  ghost predicate ScansOn(idx: seq<byte>, dat: seq<byte>, pairs: seq<(Key, Data)>, pos: nat) {
    && ScanFrom(idx, dat, FIRST_REC).Done? && ScanFrom(idx, dat, pos).Done?
    && pairs + ScanFrom(idx, dat, pos).value == ScanFrom(idx, dat, FIRST_REC).value
  }

  lemma ScanBegins(idx: seq<byte>, dat: seq<byte>)
    requires ScanFrom(idx, dat, FIRST_REC).Done?
    ensures ScansOn(idx, dat, [], FIRST_REC)
  {
    hide ScanFrom;
    assert [] + ScanFrom(idx, dat, FIRST_REC).value == ScanFrom(idx, dat, FIRST_REC).value;
  }

  /** One call of the scan, and what is left of it. */
  lemma ScanStep(idx: seq<byte>, dat: seq<byte>, pairs: seq<(Key, Data)>, pos: nat)
    requires ScansOn(idx, dat, pairs, pos)
    ensures var r, hit := NextPair(idx, dat, pos), NextLive(idx, pos);
            && r.Done?
            && (r.value.None? ==> Done(pairs) == ScanFrom(idx, dat, FIRST_REC))
            && (r.value.Some? ==>
                  && hit.Hit? && pos < After(hit.at, hit.rec) && pos < |idx|
                  && ScansOn(idx, dat, pairs + [r.value.value], After(hit.at, hit.rec)))
  {
    hide NextPair, NextLive, ScanFrom;
    ScanUnfolds(idx, dat, pos);
    var r, hit, rest := NextPair(idx, dat, pos), NextLive(idx, pos), ScanFrom(idx, dat, pos).value;
    if r.value.None? {
      assert pairs + [] == pairs;
    } else {
      var more := ScanFrom(idx, dat, After(hit.at, hit.rec)).value;
      assert pairs + ([r.value.value] + more) == pairs + [r.value.value] + more;
    }
  }

  lemma ScanUnfolds(idx: seq<byte>, dat: seq<byte>, pos: nat)
    requires ScanFrom(idx, dat, pos).Done?
    ensures var r, hit := NextPair(idx, dat, pos), NextLive(idx, pos);
            && r.Done?
            && (r.value.None? ==> ScanFrom(idx, dat, pos).value == [])
            && (r.value.Some? ==>
                  && hit.Hit? && pos < After(hit.at, hit.rec) && pos < |idx|
                  && ScanFrom(idx, dat, After(hit.at, hit.rec)).Done?
                  && ScanFrom(idx, dat, pos).value
                       == [r.value.value] + ScanFrom(idx, dat, After(hit.at, hit.rec)).value)
  {
    hide ParseRec, ReadData, AllBlank;
  }

  /** What each operation logs is one call of the locking model. */
  lemma OperationsAreCalls(key: Key, kind: Kind, found: bool)
    ensures Locking.IsCall(OpenActs()) && Locking.IsCall(ScanActs())
    ensures Locking.IsCall(Chained(ChainOff(key), Shared, []))
    ensures Locking.IsCall(Chained(ChainOff(key), Exclusive, if found then FreeActs() else []))
    ensures Locking.IsCall(Chained(ChainOff(key), Exclusive, InnerActs(kind)))
  {
    var h := Hash(key);
    assert Locking.IsChained(Chained(ChainOff(key), Shared, []), h, Shared, []);
    assert Locking.IsChained(Chained(ChainOff(key), Exclusive, []), h, Exclusive, []);
    assert Locking.IsChained(Chained(ChainOff(key), Exclusive, FreeActs()), h, Exclusive, FreeActs());
    assert Locking.IsChained(Chained(ChainOff(key), Exclusive, InnerActs(kind)), h, Exclusive, InnerActs(kind));
  }
}
