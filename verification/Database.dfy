/** The database handle of db.h and the operations of db.c over its two files. */
module Database {
  import opened Text
  import opened Records
  import opened Links
  import opened Images
  import opened Lookups
  import opened Steps
  import opened Effects
  import opened LockActs
  import opened Locking
  import opened History
  import opened Scans
  import opened Creation
  import opened Separators

  datatype Whence = SeekSet | SeekEnd

  /** The statistics of a handle. */
  datatype Counts = Counts(
    delok: nat, delerr: nat, fetchok: nat, fetcherr: nat, nextrec: nat,
    stor1: nat, stor2: nat, stor3: nat, stor4: nat, storerr: nat)

  class DB {
    var idx: seq<byte>
    var dat: seq<byte>
    var pos: nat             // file offset of the index descriptor
    var idxbuf: seq<byte>
    var datbuf: seq<byte>
    var idxoff: nat
    var idxlen: nat
    var datoff: nat
    var datlen: nat
    var ptrval: int
    var ptroff: nat
    var chainoff: nat
    var counts: Counts

    ghost var im: Image
    ghost var trace: seq<Snap>
    ghost var locks: seq<Act>

    /** db_open: with O_CREAT and O_TRUNC the files start empty and get a header; otherwise they
        are taken as they are. */
    constructor Open(idx0: seq<byte>, dat0: seq<byte>, createTrunc: bool, ghost im0: Image)
      ensures counts == Counts(0, 0, 0, 0, 0, 0, 0, 0, 0, 0) && trace == [] && pos == FIRST_REC
      ensures createTrunc ==>
                Quiescent(im, idx, dat) && Indexed(im) && Contents(im) == map[] && TallyOf(im) == Tally(0, 0)
      ensures createTrunc ==> locks == OpenActs()
      ensures !createTrunc ==> idx == idx0 && dat == dat0 && im == im0 && locks == []
    {
      idx, dat := if createTrunc then [] else idx0, if createTrunc then [] else dat0;
      pos, idxoff, idxlen, datoff, datlen, ptrval, ptroff, chainoff := 0, 0, 0, 0, 0, 0, 0, 0;
      idxbuf, datbuf := [], [];
      counts := Counts(0, 0, 0, 0, 0, 0, 0, 0, 0, 0);
      im, trace, locks := im0, [], [];
      new;
      if createTrunc {
        BuildHeader();
      }
      Rewind();
    }

    method BuildHeader()
      requires idx == [] && dat == [] && locks == []
      modifies `idx, `im, `locks
      ensures Quiescent(im, idx, dat) && Indexed(im) && Contents(im) == map[] && TallyOf(im) == Tally(0, 0)
      ensures locks == OpenActs()
    {
      hide Quiescent, Indexed, Contents, TallyOf, Shows, PtrText, IdxFile, DatFile, FreshTiles, FreshImage, ZeroHeads;
      FreshFiles();
      FreshIsEmpty();
      QuiescentParts(FreshImage(), IdxFile(FreshTiles()), []);
      locks := locks + [Acquire(IdxFd, 0, 0, Exclusive)];
      if |idx| == 0 {
        var asciiptr := PtrText(0);
        var hash: seq<byte> := [];
        var i := 0;
        while i < NHASH + 1
          invariant i <= NHASH + 1 && hash == IdxFile(ZeroHeads(i)) && locks == [Acquire(IdxFd, 0, 0, Exclusive)]
        {
          ZeroText(i);
          hash := hash + asciiptr;
          i := i + 1;
        }
        hash := hash + [NEWLINE];
        idx := hash;
      }
      im := FreshImage();
      locks := locks + [Release(IdxFd, 0, 0)];
      assert locks == OpenActs();
    }

    // ---- Single reads and writes ----

    method ReadPtr(offset: nat) returns (r: Outcome<int>)
      modifies `pos
      ensures r == ParsePtr(idx, offset)
    {
      pos := offset;
      var asciiptr := ReadAt(idx, pos, PTR_SZ);
      if asciiptr.None? {
        return Fail;
      }
      pos := pos + PTR_SZ;
      return Done(Atol(asciiptr.value));
    }

    /** Offset 0 means: read on from the current file offset. End of file is an error otherwise. */
    method ReadIdx(offset: nat) returns (r: Parsed)
      modifies `pos, `idxoff, `idxlen, `idxbuf, `ptrval, `datoff, `datlen
      ensures idxoff == if offset == 0 then old(pos) else offset
      ensures var p := ParseRec(idx, idxoff); r == if p.Eof? && offset != 0 then Bad else p
      ensures r.Read? ==> IdxRec(ptrval, idxlen, idxbuf, datoff, datlen) == r.rec
      ensures r.Read? ==> pos == idxoff + PTR_SZ + IDXLEN_SZ + idxlen
    {
      hide Atol, Split, CutAtNul, Digits, IndexOf, Decimal, Padded;
      idxoff := if offset == 0 then pos else offset;
      pos := idxoff;
      if pos >= |idx| {
        return if offset == 0 then Eof else Bad;
      }
      if pos + PTR_SZ + IDXLEN_SZ > |idx| {
        return Bad;
      }
      var asciiptr := idx[pos..pos + PTR_SZ];
      var asciilen := idx[pos + PTR_SZ..pos + PTR_SZ + IDXLEN_SZ];
      pos := pos + PTR_SZ + IDXLEN_SZ;
      ptrval := Atol(asciiptr);
      var len := Atol(asciilen);
      if len < IDXLEN_MIN || len > IDXLEN_MAX {
        return Bad;
      }
      idxlen := len;
      if pos + idxlen > |idx| || idx[pos + idxlen - 1] != NEWLINE {
        return Bad;
      }
      var fields := Split(CutAtNul(idx[pos..pos + idxlen - 1]));
      pos := pos + idxlen;
      if fields.None? {
        return Bad;
      }
      idxbuf := fields.value.0;
      var off, dlen := Atol(fields.value.1), Atol(fields.value.2);
      if off < 0 || dlen <= 0 || dlen > DATLEN_MAX {
        return Bad;
      }
      datoff, datlen := off, dlen;
      return Read(IdxRec(ptrval, idxlen, idxbuf, datoff, datlen));
    }

    method ReadDat() returns (r: Outcome<Data>)
      modifies `datbuf
      ensures r == ReadData(dat, datoff, datlen)
      ensures r.Done? ==> datbuf == r.value
    {
      var b := ReadAt(dat, datoff, datlen);
      if b.None? || datlen == 0 || b.value[datlen - 1] != NEWLINE {
        return Fail;
      }
      datbuf := CutAtNul(b.value[..datlen - 1]);
      return Done(datbuf);
    }

    method WriteDat(data: Data, offset: nat, whence: Whence)
      modifies `dat, `datoff, `datlen, `trace, `locks
      ensures datoff == if whence.SeekEnd? then |old(dat)| + offset else offset
      ensures datlen == |data| + 1
      ensures dat == WriteAt(old(dat), datoff, data + [NEWLINE])
      ensures Wrote(old(trace), trace, idx, dat)
      ensures trace[|old(trace)|].idxSize == |old(idx)| && trace[|old(trace)|].datSize == |old(dat)|
      ensures if whence.SeekEnd? then Logs(old(locks), locks, DatAppendActs()) else unchanged(`locks)
      ensures whence.SeekEnd? ==> Within(old(trace), trace, old(locks), DatAppendActs())
      ensures whence.SeekSet? && |dat| == |old(dat)| ==> Within(old(trace), trace, old(locks), [])
    {
      hide WriteAt, Within, Covers, Owns;
      ghost var t0, l0, size := trace, locks, |dat|;
      if whence.SeekEnd? {
        locks := locks + [Acquire(DatFd, 0, 0, Exclusive)];
      }
      datoff := if whence.SeekEnd? then |dat| + offset else offset;
      datlen := |data| + 1;
      dat := WriteAt(dat, datoff, data + [NEWLINE]);
      trace := trace + [Snap(idx, dat, |idx|, size, locks)];
      if whence.SeekEnd? {
        DatLockCovers();
        WithinLocked(t0, trace, l0, Acquire(DatFd, 0, 0, Exclusive), [Release(DatFd, 0, 0)]);
        locks := locks + [Release(DatFd, 0, 0)];
      } else if |dat| == size {
        WithinPlace(t0, trace, l0);
      }
    }

    /** Writes the record of the data that WriteDat wrote last. */
    method WriteIdx(key: Key, offset: nat, whence: Whence, ptr: int) returns (ok: bool)
      modifies `idx, `pos, `idxoff, `idxbuf, `ptrval, `trace, `locks
      ensures ok <==> 0 <= ptr <= PTR_MAX && IDXLEN_MIN <= |RecText(key, datoff, datlen)| <= IDXLEN_MAX
      ensures !ok ==> idx == old(idx) && trace == old(trace)
      ensures ok ==> idxoff == if whence.SeekEnd? then |old(idx)| + offset else offset
      ensures ok ==> idx == WriteAt(old(idx), idxoff, RecPtrText(ptr) + RecBody(key, datoff, datlen))
      ensures ok ==> Wrote(old(trace), trace, idx, dat)
      ensures ok ==> trace[|old(trace)|].idxSize == |old(idx)| && trace[|old(trace)|].datSize == |old(dat)|
      ensures ok ==> if whence.SeekEnd? then Logs(old(locks), locks, IdxAppendActs()) else unchanged(`locks)
      ensures ok && whence.SeekEnd? && |old(idx)| >= APPEND_OFF ==>
                Within(old(trace), trace, old(locks), IdxAppendActs())
      ensures ok && whence.SeekSet? && |idx| == |old(idx)| ==> Within(old(trace), trace, old(locks), [])
    {
      hide WriteAt, Within, Covers, Owns;
      ghost var t0, l0, size := trace, locks, |idx|;
      ptrval := ptr;
      if ptrval < 0 || ptrval > PTR_MAX {
        return false;
      }
      idxbuf := RecText(key, datoff, datlen);
      var len := |idxbuf|;
      if len < IDXLEN_MIN || len > IDXLEN_MAX {
        return false;
      }
      if whence.SeekEnd? {
        locks := locks + [Acquire(IdxFd, APPEND_OFF, 0, Exclusive)];
      }
      idxoff := if whence.SeekEnd? then |idx| + offset else offset;
      idx := WriteAt(idx, idxoff, RecPtrText(ptr) + (Padded(Decimal(len), IDXLEN_SZ) + idxbuf));
      pos := idxoff + PTR_SZ + IDXLEN_SZ + len;
      trace := trace + [Snap(idx, dat, size, |dat|, locks)];
      if whence.SeekEnd? {
        if size >= APPEND_OFF {
          IdxLockCovers();
          WithinLocked(t0, trace, l0, Acquire(IdxFd, APPEND_OFF, 0, Exclusive), [Release(IdxFd, APPEND_OFF, 0)]);
        }
        locks := locks + [Release(IdxFd, APPEND_OFF, 0)];
      } else if |idx| == size {
        WithinPlace(t0, trace, l0);
      }
      return true;
    }

    method WritePtr(offset: nat, ptr: int) returns (ok: bool)
      modifies `idx, `pos, `trace
      ensures ok <==> 0 <= ptr <= PTR_MAX
      ensures !ok ==> idx == old(idx) && trace == old(trace)
      ensures ok ==> idx == WriteAt(old(idx), offset, PtrText(ptr))
      ensures ok ==> Wrote(old(trace), trace, idx, dat)
      ensures ok ==> trace[|old(trace)|].idxSize == |old(idx)| && trace[|old(trace)|].datSize == |old(dat)|
      ensures ok && offset + PTR_SZ <= |old(idx)| ==> |idx| == |old(idx)| && Within(old(trace), trace, locks, [])
    {
      hide PtrText, Within;
      ghost var t0, size := trace, |idx|;
      if ptr < 0 || ptr > PTR_MAX {
        return false;
      }
      PtrTextRoundTrip(ptr);
      idx := WriteAt(idx, offset, PtrText(ptr));
      pos := offset + PTR_SZ;
      trace := trace + [Snap(idx, dat, size, |dat|, locks)];
      if |idx| == size {
        WithinPlace(t0, trace, locks);
      }
      return true;
    }

    // ---- Locks ----

    method LockChain(writelock: bool)
      modifies `locks
      ensures Logs(old(locks), locks, ChainLock(chainoff, if writelock then Exclusive else Shared))
    {
      locks := locks + ChainLock(chainoff, if writelock then Exclusive else Shared);
    }

    method UnlockChain()
      modifies `locks
      ensures Logs(old(locks), locks, ChainUnlock(chainoff))
    {
      locks := locks + ChainUnlock(chainoff);
    }

    method LockScan()
      modifies `locks
      ensures Logs(old(locks), locks, ScanLock())
    {
      locks := locks + ScanLock();
    }

    method LockFree()
      modifies `locks
      ensures Logs(old(locks), locks, FreeLock())
    {
      locks := locks + FreeLock();
    }

    method UnlockFree()
      modifies `locks
      ensures Logs(old(locks), locks, FreeUnlock())
    {
      locks := locks + FreeUnlock();
    }

    // ---- Searching ----

    method HashOf(key: Key) returns (h: nat)
      ensures h == Hash(key)
    {
      var hval, i := 0, 1;
      while i <= |key|
        invariant 1 <= i <= |key| + 1
        invariant hval == HashPrefix(key, i - 1)
      {
        hval := (hval + Signed(key[i - 1]) * i) % HASH_MOD;
        i := i + 1;
      }
      return hval % NHASH;
    }

    /** Reads tile j's record into the handle. */
    method Load(offset: nat, ghost j: nat) returns (r: Parsed)
      requires Stored(im, idx, dat) && FIRST <= j < |im.tiles| && offset == IdxStart(im.tiles, j)
      modifies `pos, `idxoff, `idxlen, `idxbuf, `ptrval, `datoff, `datlen
      ensures r.Read? && r.rec.ptr == ptrval && Loaded(im, j, idxoff, ptrval, idxbuf, datoff, datlen)
    {
      hide ParseRec, RecText, IdxStart, IdxFile, DatFile;
      RecFields(im, idx, dat, j);
      r := ReadIdx(offset);
    }

    /** The loop of _db_find, from the head of list l. */
    method Walk(key: Key, first: int, ghost l: nat, ghost i: nat) returns (found: bool, ghost k: nat)
      requires Searchable(im, idx, dat) && l == 1 + Hash(key) < HEADS && Position(im, key, i)
      requires Standing(im, l, 0, ptroff, first)
      modifies `pos, `idxoff, `idxlen, `idxbuf, `ptrval, `datoff, `datlen, `ptroff
      ensures found <==> key in im.index
      ensures l < |im.lists| && k <= |im.lists[l]| && Before(l, im.lists[l], k) < |im.tiles|
      ensures found ==>
                k < |im.lists[l]| && im.lists[l][k] == im.index[key]
                && Loaded(im, im.index[key], idxoff, ptrval, idxbuf, datoff, datlen)
      ensures found ==> ptroff == IdxStart(im.tiles, Before(l, im.lists[l], k))
    {
      hide *;
      Basics(im, idx, dat);
      var offset := first;
      k := 0;
      ghost var I := im;
      PositionTest(I, key, i, 0);
      while offset != 0
        invariant k <= i && Standing(I, l, k, ptroff, offset)
        decreases |I.lists[l]| - k
      {
        StandingNext(I, idx, dat, l, k, ptroff, offset);
        var rec := Load(offset, I.lists[l][k]);
        LoadedFacts(I, I.lists[l][k], idxoff, ptrval, idxbuf, datoff, datlen);
        PositionTest(I, key, i, k);
        if idxbuf == key {
          break;
        }
        ptroff := offset;
        offset := rec.rec.ptr;
        k := k + 1;
      }
      StandingFacts(I, l, k, ptroff, offset);
      PositionTest(I, key, i, k);
      found := offset != 0;
    }

    /** On success ptroff is where the pointer to the found record lives: in the hash table or in
        the record before it. The chain stays locked. */
    method Find(key: Key, writelock: bool) returns (found: bool, ghost k: nat)
      requires Searchable(im, idx, dat)
      modifies `pos, `idxoff, `idxlen, `idxbuf, `ptrval, `datoff, `datlen, `ptroff, `chainoff, `locks
      ensures found <==> key in im.index
      ensures chainoff == ChainOff(key) && 1 + Hash(key) < |im.tiles| && chainoff == IdxStart(im.tiles, 1 + Hash(key))
      ensures found ==> Located(im, key, k, ptroff) && Loaded(im, im.index[key], idxoff, ptrval, idxbuf, datoff, datlen)
      ensures Logs(old(locks), locks, ChainLock(ChainOff(key), if writelock then Exclusive else Shared))
    {
      hide Searchable, Position, Standing, Located, Loaded, Partitioned, Indexed, Stored, Shaped, IdxStart, Hash,
        ParsePtr, ChainOff, ChainAt, Logs, ChainLock;
      Basics(im, idx, dat);
      ghost var i := ChainPosition(im, key);
      StandingStart(im, idx, dat, 1 + Hash(key));
      ChainOffIs(key);
      var h := HashOf(key);
      chainoff := ChainAt(h);
      ptroff := chainoff;
      LockChain(writelock);
      var p := ReadPtr(ptroff);
      found, k := Walk(key, p.value, 1 + h, i);
      if found {
        LocatedHere(im, key, k, ptroff);
      }
    }

    // ---- The free list ----

    /** The loop of _db_findfree. saveoffset is where the pointer to the found record lives. */
    method WalkFree(keylen: nat, datLen: nat, first: int, ghost i: nat)
      returns (found: bool, saveoffset: nat, ghost k: nat)
      requires Searchable(im, idx, dat) && FREE < HEADS && FirstFit(im, keylen, datLen, i)
      requires Standing(im, FREE, 0, 0, first)
      modifies `pos, `idxoff, `idxlen, `idxbuf, `ptrval, `datoff, `datlen
      ensures |im.lists| == HEADS && (found <==> k < |im.lists[FREE]|) && k == i <= |im.lists[FREE]|
      ensures Before(FREE, im.lists[FREE], k) < |im.tiles|
              && saveoffset == IdxStart(im.tiles, Before(FREE, im.lists[FREE], k))
      ensures found ==> Loaded(im, im.lists[FREE][k], idxoff, ptrval, idxbuf, datoff, datlen)
    {
      hide *;
      Basics(im, idx, dat);
      var offset := first;
      saveoffset := 0;
      k := 0;
      ghost var I := im;
      FitTest(I, keylen, datLen, i, 0);
      while offset != 0
        invariant k <= i && Standing(I, FREE, k, saveoffset, offset)
        decreases |I.lists[FREE]| - k
      {
        StandingNext(I, idx, dat, FREE, k, saveoffset, offset);
        var rec := Load(offset, I.lists[FREE][k]);
        LoadedFacts(I, I.lists[FREE][k], idxoff, ptrval, idxbuf, datoff, datlen);
        FitsIs(I.tiles[I.lists[FREE][k]], keylen, datLen);
        FitTest(I, keylen, datLen, i, k);
        if |idxbuf| == keylen && datlen == datLen {
          break;
        }
        saveoffset := offset;
        offset := rec.rec.ptr;
        k := k + 1;
      }
      StandingFacts(I, FREE, k, saveoffset, offset);
      FitTest(I, keylen, datLen, i, k);
      found := offset != 0;
    }

    /** The search of _db_findfree, from the head of the free list. */
    method SearchFree(keylen: nat, datLen: nat) returns (found: bool, saveoffset: nat, ghost k: nat)
      requires Searchable(im, idx, dat)
      modifies `pos, `idxoff, `idxlen, `idxbuf, `ptrval, `datoff, `datlen
      ensures found <==> HasFit(im, keylen, datLen)
      ensures |im.lists| == HEADS && k <= |im.lists[FREE]|
      ensures Before(FREE, im.lists[FREE], k) < |im.tiles|
              && saveoffset == IdxStart(im.tiles, Before(FREE, im.lists[FREE], k))
      ensures found ==> k < |im.lists[FREE]| && FitsAt(im, im.lists[FREE][k], keylen, datLen)
      ensures found ==> Loaded(im, im.lists[FREE][k], idxoff, ptrval, idxbuf, datoff, datlen)
    {
      assert FREE == 0 < HEADS;
      hide *;
      Basics(im, idx, dat);
      ghost var i := FitExists(im, keylen, datLen);
      StandingStart(im, idx, dat, FREE);
      var p := ReadPtr(0);
      found, saveoffset, k := WalkFree(keylen, datLen, p.value, i);
      FitTest(im, keylen, datLen, i, k);
    }

    /** Takes the record that SearchFree found off the free list. */
    method Unhook(saveoffset: nat, ghost k: nat, ghost keylen: nat, ghost datLen: nat)
      requires Quiescent(im, idx, dat) && |im.lists| == HEADS && k < |im.lists[FREE]|
               && Loaded(im, im.lists[FREE][k], idxoff, ptrval, idxbuf, datoff, datlen)
      requires Before(FREE, im.lists[FREE], k) < |im.tiles|
               && saveoffset == IdxStart(im.tiles, Before(FREE, im.lists[FREE], k))
      requires FitsAt(im, im.lists[FREE][k], keylen, datLen)
      modifies `idx, `pos, `trace, `im
      ensures FitsAt(im, old(im).lists[FREE][k], keylen, datLen)
      ensures Freed(old(im), im, idx, dat, old(im).lists[FREE][k]) && Wrote(old(trace), trace, idx, dat)
      ensures Within(old(trace), trace, locks, [])
      ensures Loaded(im, old(im).lists[FREE][k], idxoff, ptrval, idxbuf, datoff, datlen)
    {
      hide Within, Quiescent, Loose, Searchable, IdxStart, PtrText, WriteAt, Stored, Indexed, Partitioned, Shaped;
      ghost var I, j := im, im.lists[FREE][k];
      QuiescentFacts(I, idx, dat);
      Basics(I, idx, dat);
      TakeStep(I, idx, dat, k);
      ghost var I' := Taken(I, k, PtrText(Addr(I.tiles, I.next[j])));
      TakenAddr(I, I', k);
      PtrInside(I, idx, dat, Before(FREE, I.lists[FREE], k));
      var ok := WritePtr(saveoffset, ptrval);
      im := I';
    }

    /** Takes the first deleted record of the right sizes off the free list. */
    method FindFree(keylen: nat, datLen: nat) returns (found: bool, ghost j: nat)
      requires Quiescent(im, idx, dat)
      modifies `idx, `pos, `idxoff, `idxlen, `idxbuf, `ptrval, `datoff, `datlen, `trace, `locks, `im
      ensures found <==> HasFit(old(im), keylen, datLen)
      ensures Logs(old(locks), locks, FreeUnlock())
      ensures Within(old(trace), trace, old(locks), FreeUnlock())
      ensures !found ==> unchanged(`idx) && unchanged(`im) && unchanged(`trace)
      ensures found ==> Freed(old(im), im, idx, dat, j) && Wrote(old(trace), trace, idx, dat)
      ensures found ==> Loaded(im, j, idxoff, ptrval, idxbuf, datoff, datlen) && FitsAt(im, j, keylen, datLen)
    {
      hide Within, Quiescent, Searchable, Loose, Freed, Loaded, FitsAt, HasFit, Before, IdxStart, Wrote, Logs;
      QuiescentFacts(im, idx, dat);
      ghost var I, t0, l0 := im, trace, locks;
      var saveoffset;
      ghost var k;
      found, saveoffset, k := SearchFree(keylen, datLen);
      j := 0;
      WithinNone(t0, l0, FreeUnlock());
      if found {
        j := I.lists[FREE][k];
        Unhook(saveoffset, k, keylen, datLen);
        WithinFirst(t0, trace, l0, FreeUnlock());
      }
      UnlockFree();
    }

    // ---- Inserting ----

    /** The last write of an insert: record j goes to the front of its chain. */
    method PublishRecord(ghost I: Image, ghost I1: Image, ghost j: nat, ghost key: Key, ghost data: Data,
                         ghost free: int, ghost total: int, ghost t0: seq<Snap>)
      returns (ok: bool)
      requires Awaits(I, I1, idx, dat, j, key, data, free, total) && Indexed(I) && ShowedAll(t0, trace, Contents(I))
      requires j <= |I1.tiles| && idxoff == IdxStart(I1.tiles, j) && chainoff == ChainOff(key)
      modifies `idx, `pos, `trace, `im
      ensures ok <==> old(idxoff) <= PTR_MAX
      ensures ok ==> Inserted(I, im, idx, dat, key, data, free, total)
      ensures ok ==> InsertedLast(t0, trace, Contents(I), key, data)
      ensures Within(old(trace), trace, locks, [])
      ensures !ok ==> Uninserted(I, im, idx, dat, key) && ShowedAll(t0, trace, Contents(I))
    {
      hide Within, Quiescent, Searchable, Loose, Indexed, Contents, Shows, Shown, Ready, ShowedAll, Switched, Wrote,
        PtrText,
        WriteAt, ChainOff, IdxStart, Hash, Published, MapPut, Awaits, Inserted, InsertedLast, Uninserted,
        AfterPublish;
      im := I1;
      ghost var t1 := trace;
      PublishAny(I, I1, idx, dat, j, key, data, free, total);
      AwaitsFacts(I, I1, idx, dat, j, key, data, free, total);
      ChainInside(key);
      WithinNone(trace, locks, []);
      ok := WritePtr(chainoff, idxoff);
      if ok {
        im := AfterPublish(I1, key, j, PtrText(idxoff));
        InsertsNow(t0, t1, trace, I, im, idx, dat, key, data, free, total);
      }
    }

    /** The end of _db_store's append paths: data record, index record, then the chain head. */
    method AppendRecord(key: Key, data: Data, ptr: int) returns (ok: bool)
      requires Quiescent(im, idx, dat) && Indexed(im) && key !in im.index && Storable(key, data)
      requires 1 + Hash(key) < |im.next| && im.next[1 + Hash(key)] <= |im.tiles|
      requires chainoff == ChainOff(key) && ptr == Addr(im.tiles, im.next[1 + Hash(key)])
      modifies `idx, `dat, `pos, `idxoff, `idxbuf, `ptrval, `datoff, `datlen, `trace, `locks, `im
      ensures ok <==> CanAppend(old(idx), old(dat), key, data)
      ensures ok ==> Inserted(old(im), im, idx, dat, key, data, 0, 1)
      ensures ok ==> InsertedLast(old(trace), trace, Contents(old(im)), key, data)
      ensures ok ==> Logs(old(locks), locks, DatAppendActs() + IdxAppendActs())
      ensures Within(old(trace), trace, old(locks), DatAppendActs() + IdxAppendActs())
      ensures !ok ==> Uninserted(old(im), im, idx, dat, key) && ShowedAll(old(trace), trace, Contents(old(im)))
    {
      hide Within, Quiescent, Searchable, Loose, Indexed, Contents, Shows, Shown, Ready, ShowedAll, Switched, Wrote,
        Logs,
        Became, WriteAt, ChainOff, IdxStart, Hash, Published, MapPut, Storable, RecText, RecBody, RecPtrText, Addr,
        NewRec, Awaits, Inserted, InsertedLast, Uninserted;
      ghost var I, m := im, Contents(im);
      ghost var t0, l0 := trace, locks;
      ShowedNone(t0, m);
      QuiescentParts(I, idx, dat);
      HeaderSize(I, idx, dat);
      DataAppended(I, idx, dat, data);
      WriteDat(data, 0, SeekEnd);
      ghost var t1, l1 := trace, locks;
      WithinMore(t0, t1, l0, DatAppendActs(), IdxAppendActs());
      ShownFacts(I, idx, dat, m);
      ShowedMore(t0, t0, t1, m, idx, dat);
      UninsertedNow(I, I, idx, dat, key);
      if IDXLEN_MIN <= |RecText(key, datoff, datlen)| <= IDXLEN_MAX {
        AnyAppended(I, old(idx), old(dat), key, data);
      }
      InRange(I, old(idx), old(dat), 1 + Hash(key));
      ok := WriteIdx(key, 0, SeekEnd, ptr);
      if ok {
        ghost var t2, l2 := trace, locks;
        LogsThen(l0, l1, l2, DatAppendActs(), IdxAppendActs());
        WithinThen(t0, t1, t2, l0, l1, DatAppendActs(), IdxAppendActs());
        ghost var I1 := AddRec(I, NewRec(I, old(dat), key, data), I.next[1 + Hash(key)]);
        AwaitsFacts(I, I1, idx, dat, |I.tiles|, key, data, 0, 1);
        ShowedMore(t0, t1, t2, m, idx, dat);
        ok := PublishRecord(I, I1, |I.tiles|, key, data, 0, 1, t0);
        WithinLast(t0, t2, trace, l0, l2, DatAppendActs() + IdxAppendActs());
      }
    }

    /** The end of _db_store's reuse path: data, index record and chain head, over record j. */
    method ReuseRecord(ghost I: Image, ghost j: nat, key: Key, data: Data, ptr: int, ghost t0: seq<Snap>)
      requires Freed(I, im, idx, dat, j) && key !in I.index && Storable(key, data)
      requires Loaded(im, j, idxoff, ptrval, idxbuf, datoff, datlen) && FitsAt(im, j, |key|, |data| + 1)
      requires 1 + Hash(key) < |I.next| && I.next[1 + Hash(key)] <= |I.tiles|
      requires chainoff == ChainOff(key) && ptr == Addr(I.tiles, I.next[1 + Hash(key)])
      requires Indexed(I) && ShowedAll(t0, trace, Contents(I))
      modifies `idx, `dat, `pos, `idxoff, `idxbuf, `ptrval, `datoff, `datlen, `trace, `locks, `im
      ensures Inserted(I, im, idx, dat, key, data, -1, 0)
      ensures InsertedLast(t0, trace, Contents(I), key, data)
      ensures Within(old(trace), trace, locks, []) && unchanged(`locks)
    {
      hide Within, Quiescent, Searchable, Loose, Indexed, Contents, Shows, Shown, Ready, ShowedAll, Switched, Wrote,
        Logs,
        Became, WriteAt, ChainOff, IdxStart, HashPrefix, Published, MapPut, Storable, RecText, RecBody, RecPtrText,
        Addr, Freed, Awaits, Inserted, InsertedLast, Uninserted;
      ghost var m, I0, t1 := Contents(I), im, trace;
      ghost var off := datoff;
      LoadedFacts(im, j, idxoff, ptrval, idxbuf, datoff, datlen);
      assert FitsAt(im, j, |key|, |data| + 1);
      StorableFacts(key, data);
      RecordRefilled(I, I0, idx, dat, j, data);
      FreedHead(I, I0, idx, dat, j, data, Hash(key));
      AnyRewritten(I, I0, idx, dat, j, key, data);
      ReuseSizes(I, I0, idx, dat, j, key, data, ptr);
      WriteDat(data, datoff, SeekSet);
      ghost var t2, I1 := trace, SetData(I0, j, data);
      ShownFacts(I1, idx, dat, m);
      ShowedMore(t0, t1, t2, m, idx, dat);
      var ok := WriteIdx(key, idxoff, SeekSet, ptr);
      ghost var t3 := trace;
      WithinStill(t1, t2, t3, locks);
      ghost var n := I1.next[1 + Hash(key)];
      ghost var I2 := SetRec(I1, j, RecPtrText(Addr(I1.tiles, n)), n, key);
      AwaitsFacts(I, I2, idx, dat, j, key, data, -1, 0);
      ShowedMore(t0, t2, t3, m, idx, dat);
      ok := PublishRecord(I, I2, j, key, data, -1, 0, t0);
      WithinStill(t1, t3, trace, locks);
    }

    // ---- Deleting ----

    /** The buffers of a deleted record, blanked up to their final NULs. */
    method BlankBuffers()
      requires datlen > 0
      modifies `datbuf, `idxbuf
      ensures datbuf == Blanks(datlen - 1) && idxbuf == Blanks(|old(idxbuf)|)
    {
      datbuf := [];
      var i := 0;
      while i < datlen - 1
        invariant i <= datlen - 1 && datbuf == Blanks(i) && unchanged(`idxbuf) && unchanged(`datlen)
      {
        datbuf := datbuf + [SPACE];
        i := i + 1;
      }
      var ptr := 0;
      while ptr < |idxbuf|
        invariant ptr <= |idxbuf| == |old(idxbuf)| && unchanged(`datlen) && datbuf == Blanks(datlen - 1)
        invariant forall m | 0 <= m < ptr :: idxbuf[m] == SPACE
      {
        idxbuf := idxbuf[ptr := SPACE];
        ptr := ptr + 1;
      }
    }

    /** The first two writes of _db_dodelete: blank data, then the blank record, which points at the
        old free list. */
    method BlankRecord(ghost key: Key, ghost k: nat) returns (saveptr: int)
      requires Quiescent(im, idx, dat) && Located(im, key, k, ptroff)
      requires key in im.index && Loaded(im, im.index[key], idxoff, ptrval, idxbuf, datoff, datlen)
      requires 1 + Hash(key) < |im.lists| && k <= |im.lists[1 + Hash(key)]|
      modifies `idx, `dat, `pos, `idxoff, `idxbuf, `datbuf, `ptrval, `datoff, `datlen, `trace, `locks
      ensures AtStage(im, im.index[key], Pred(im, key, k), 2, idx, dat)
      ensures saveptr == old(ptrval) && idxoff == old(idxoff) && unchanged(`locks)
      ensures Within(old(trace), trace, locks, [])
      ensures Extended(old(trace), trace, 2)
    {
      hide Within, Quiescent, Searchable, AtStage, Located, WriteAt, RecText, RecBody, RecPtrText, Addr, IdxStart,
        Blanks,
        ParsePtr, Hash, Wrote, Pred;
      ghost var j := im.index[key];
      LoadedFacts(im, j, idxoff, ptrval, idxbuf, datoff, datlen);
      DeleteBegins(im, idx, dat, key, k, ptroff);
      Stage1(im, j, Pred(im, key, k), idx, dat);
      BlankBuffers();
      QuiescentParts(im, idx, dat);
      RefillFits(im, idx, dat, j, datbuf);
      WriteDat(datbuf, datoff, SeekSet);
      ghost var t1 := trace;
      ExtendedMore(old(trace), old(trace), t1, 0, idx, dat);
      var freeptr := ReadPtr(0);
      saveptr := ptrval;
      StageSize(im, j, Pred(im, key, k), 1, idx, dat);
      Stage2(im, j, Pred(im, key, k), idx, dat);
      var ok := WriteIdx(idxbuf, idxoff, SeekSet, freeptr.value);
      StageSize(im, j, Pred(im, key, k), 2, idx, dat);
      ExtendedMore(old(trace), t1, trace, 1, idx, dat);
      WithinStill(old(trace), t1, trace, locks);
    }

    /** The last two: the free list and then the chain come to agree with them. */
    method RelinkRecord(ghost I: Image, ghost idx0: seq<byte>, ghost dat0: seq<byte>, ghost key: Key, ghost k: nat,
                        saveptr: int,
                        ghost t0: seq<Snap>)
      requires Quiescent(I, idx0, dat0) && Located(I, key, k, ptroff) && key in I.index
      requires 1 + Hash(key) < |I.lists| && k <= |I.lists[1 + Hash(key)]|
      requires AtStage(I, I.index[key], Pred(I, key, k), 2, idx, dat)
      requires I.index[key] < |I.next| == |I.tiles| && I.next[I.index[key]] <= |I.tiles|
      requires idxoff == IdxStart(I.tiles, I.index[key]) && saveptr == Addr(I.tiles, I.next[I.index[key]])
      requires Extended(t0, trace, 2)
      modifies `idx, `pos, `trace, `im
      ensures Indexed(I) && Became(I, im, idx, dat, MapDel(Contents(I), key), 1, 0)
      ensures Extended(t0, trace, 4) && LastShows(trace, MapDel(Contents(I), key))
      ensures Within(old(trace), trace, locks, [])
      ensures |idx| == |idx0| && |dat| == |dat0|
    {
      hide Within, Quiescent, Searchable, AtStage, Located, WriteAt, PtrText, Addr, IdxStart, Hash, Wrote, Pred, Shaped,
        Became, Extended, LastShows, Contents, Indexed, MapDel, Shows;
      ghost var j, pred, t1 := I.index[key], Pred(I, key, k), trace;
      DeleteBegins(I, idx0, dat0, key, k, ptroff);
      StageFacts(I, j, pred, 2, idx, dat);
      Stage3(I, j, pred, idx, dat);
      StageRoom(I, j, pred, 2, idx, dat);
      var ok := WritePtr(0, idxoff);
      ghost var t2 := trace;
      ExtendedMore(t0, t1, t2, 2, idx, dat);
      StageRoom(I, j, pred, 3, idx, dat);
      Stage4(I, j, pred, idx, dat);
      ok := WritePtr(ptroff, saveptr);
      WithinStill(t1, t2, trace, locks);
      DeleteEnds(I, idx0, dat0, key, k, ptroff, idx, dat);
      ghost var I4 :| Became(I, I4, idx, dat, MapDel(Contents(I), key), 1, 0);
      im := I4;
      BecameShown(I, im, idx, dat, MapDel(Contents(I), key), 1, 0);
      ShownFacts(im, idx, dat, MapDel(Contents(I), key));
      ExtendedMore(t0, t2, trace, 3, idx, dat);
      LastShown(t2, trace, MapDel(Contents(I), key), idx, dat);
    }

    /** Deletes the record that Find left in the handle. */
    method DoDelete(ghost key: Key, ghost k: nat)
      requires Quiescent(im, idx, dat) && Located(im, key, k, ptroff)
      requires key in im.index && Loaded(im, im.index[key], idxoff, ptrval, idxbuf, datoff, datlen)
      modifies `idx, `dat, `pos, `idxoff, `idxbuf, `datbuf, `ptrval, `datoff, `datlen, `trace, `locks, `im
      ensures Indexed(old(im)) && Became(old(im), im, idx, dat, MapDel(Contents(old(im)), key), 1, 0)
      ensures Extended(old(trace), trace, 4) && LastShows(trace, MapDel(Contents(old(im)), key))
      ensures |idx| == |old(idx)| && |dat| == |old(dat)|
      ensures Guarded(old(trace), trace, 0) && Within(old(trace), trace, old(locks), FreeActs())
      ensures Logs(old(locks), locks, FreeActs())
    {
      hide Within, Guarded, Owns, Quiescent, Searchable, AtStage, Located, Addr, IdxStart, Hash, Pred, Became, Loaded,
        Extended, LastShows,
        Contents, Indexed, MapDel, Logs;
      ghost var I, t0, l0 := im, trace, locks;
      LocatedFacts(im, key, k, ptroff);
      LoadedFacts(im, im.index[key], idxoff, ptrval, idxbuf, datoff, datlen);
      LockFree();
      ghost var l1 := locks;
      var saveptr := BlankRecord(key, k);
      ghost var t1 := trace;
      RelinkRecord(I, old(idx), old(dat), key, k, saveptr, t0);
      WithinStill(t0, t1, trace, l1);
      UnderFreeLock(t0, trace, l0, l1);
      UnlockFree();
      LogsThen(l0, l1, locks, FreeLock(), FreeUnlock());
      FreeActsAre();
    }


    // ---- The operations ----

    method Fetch(key: Key) returns (r: Outcome<Option<Data>>)
      requires Quiescent(im, idx, dat)
      modifies `pos, `idxoff, `idxlen, `idxbuf, `datbuf, `ptrval, `datoff, `datlen, `ptroff, `chainoff, `locks, `counts
      ensures Indexed(im) && r == Done(MapGet(Contents(im), key)) && r == Lookup(idx, dat, key)
      ensures counts == if key in Contents(im) then old(counts).(fetchok := old(counts).fetchok + 1)
                        else old(counts).(fetcherr := old(counts).fetcherr + 1)
      ensures Logs(old(locks), locks, Chained(ChainOff(key), Shared, []))
    {
      hide Quiescent, Searchable, Located, Loaded, Stored, Indexed, Contents, IdxStart, Hash, ChainOff, Logs, Chained,
        Lookup, ReadData, Shows;
      QuiescentParts(im, idx, dat);
      Basics(im, idx, dat);
      ContentsKeys(im, key);
      ShownNow(im, idx, dat);
      ShowsAt(idx, dat, Contents(im), key);
      ghost var l0 := locks;
      var found;
      ghost var k;
      found, k := Find(key, false);
      ghost var l1 := locks;
      if !found {
        r := Done(None);
        counts := counts.(fetcherr := counts.fetcherr + 1);
      } else {
        LoadedFacts(im, im.index[key], idxoff, ptrval, idxbuf, datoff, datlen);
        DataReadBack(im, idx, dat, im.index[key]);
        var d := ReadDat();
        r := Done(Some(d.value));
        counts := counts.(fetchok := counts.fetchok + 1);
      }
      UnlockChain();
      ChainedLogs(l0, l1, l1, locks, ChainOff(key), Shared, []);
    }

    method Delete(key: Key) returns (rc: int)
      requires Quiescent(im, idx, dat)
      modifies `idx, `dat, `pos, `idxoff, `idxlen, `idxbuf, `datbuf, `ptrval, `datoff, `datlen, `ptroff, `chainoff,
        `trace, `locks,
        `im, `counts
      ensures Indexed(old(im)) && rc == if key in Contents(old(im)) then 0 else -1
      ensures Became(old(im), im, idx, dat, MapDel(Contents(old(im)), key), if rc == 0 then 1 else 0, 0)
      ensures counts == if rc == 0 then old(counts).(delok := old(counts).delok + 1)
                        else old(counts).(delerr := old(counts).delerr + 1)
      ensures Guarded(old(trace), trace, ChainOff(key)) && Guarded(old(trace), trace, 0)
      ensures rc == 0 ==> Extended(old(trace), trace, 4)
      ensures rc != 0 ==> unchanged(`idx) && unchanged(`dat) && unchanged(`trace)
      ensures Logs(old(locks), locks, Chained(ChainOff(key), Exclusive, if rc == 0 then FreeActs() else []))
    {
      hide Within, Guarded, GuardedFirst, IsInner, Quiescent, Searchable, Located, Loaded, Stored, Indexed, Contents,
        IdxStart, Hash, ChainOff, Logs, Chained,
        Shows, Became, MapDel, Extended, LastShows;
      QuiescentParts(im, idx, dat);
      Basics(im, idx, dat);
      ContentsKeys(im, key);
      BecameSame(im, idx, dat);
      DelAbsent(Contents(im), key);
      ghost var t0, l0 := trace, locks;
      GuardedNone(t0, ChainOff(key));
      GuardedNone(t0, 0);
      var found;
      ghost var k;
      found, k := Find(key, true);
      ghost var l1 := locks;
      if found {
        DoDelete(key, k);
        UnderDelete(t0, trace, l0, l1, key);
        rc := 0;
        counts := counts.(delok := counts.delok + 1);
      } else {
        LogsNone(l1);
        rc := -1;
        counts := counts.(delerr := counts.delerr + 1);
      }
      ghost var l2 := locks;
      UnlockChain();
      ChainedLogs(l0, l1, l2, locks, ChainOff(key), Exclusive, if rc == 0 then FreeActs() else []);
    }

    /** db_store for a key that is not there: reuse a deleted record of the right sizes, or append. */
    method InsertNew(key: Key, data: Data) returns (ok: bool)
      requires Quiescent(im, idx, dat) && Indexed(im) && key !in im.index && Storable(key, data)
      requires chainoff == ChainOff(key)
      modifies `idx, `dat, `pos, `idxoff, `idxlen, `idxbuf, `ptrval, `datoff, `datlen, `trace, `locks, `im, `counts
      ensures ok <==> HasFit(old(im), |key|, |data| + 1) || CanAppend(old(idx), old(dat), key, data)
      ensures ok ==>
                var kind := if HasFit(old(im), |key|, |data| + 1) then Reused else Appended;
                && Inserted(old(im), im, idx, dat, key, data, FreeDelta(kind), TotalDelta(kind))
                && counts == Count(old(counts), kind)
                && Logs(old(locks), locks, InnerActs(kind))
      ensures Within(old(trace), trace, old(locks),
                     InnerActs(if HasFit(old(im), |key|, |data| + 1) then Reused else Appended))
      ensures Indexed(old(im))
      ensures ok ==> InsertedLast(old(trace), trace, Contents(old(im)), key, data)
      ensures !ok ==> Uninserted(old(im), im, idx, dat, key) && ShowedAll(old(trace), trace, Contents(old(im)))
    {
      hide Within, Quiescent, Searchable, Loose, Indexed, Contents, Shows, Shown, ShowedAll, Switched, Wrote, Logs,
        Became,
        Freed, WriteAt, ChainOff, IdxStart, Hash, MapPut, Storable, RecText, Addr, CanAppend, HasFit, FitsAt, Loaded,
        Inserted, InsertedLast, Uninserted;
      ghost var I, t0, l0 := im, trace, locks;
      HeadRead(im, idx, dat, key);
      var ptr := ReadPtr(chainoff);
      var found;
      ghost var j;
      found, j := FindFree(|key|, |data| + 1);
      ghost var t1, l1 := trace, locks;
      if !found {
        ok := AppendRecord(key, data, ptr.value);
        WithinThen(t0, t1, trace, l0, l1, FreeUnlock(), DatAppendActs() + IdxAppendActs());
        if ok {
          LogsThen(l0, l1, locks, FreeUnlock(), DatAppendActs() + IdxAppendActs());
          counts := counts.(stor1 := counts.stor1 + 1);
        }
      } else {
        FreedFacts(I, im, idx, dat, j);
        LooseShown(I, im, idx, dat, j);
        ShowedNone(t0, Contents(I));
        ShowedMore(t0, t0, trace, Contents(I), idx, dat);
        ReuseRecord(I, j, key, data, ptr.value, t0);
        WithinLast(t0, t1, trace, l0, l1, FreeUnlock());
        ok := true;
        counts := counts.(stor2 := counts.stor2 + 1);
      }
    }

    /** db_store over the record that Find left in the handle. */
    method ReplaceOld(key: Key, data: Data, ghost k: nat) returns (ok: bool)
      requires Quiescent(im, idx, dat) && Indexed(im) && Located(im, key, k, ptroff) && Storable(key, data)
      requires key in im.index && Loaded(im, im.index[key], idxoff, ptrval, idxbuf, datoff, datlen)
      requires chainoff == ChainOff(key) && key in Contents(im)
      modifies `idx, `dat, `pos, `idxoff, `idxlen, `idxbuf, `datbuf, `ptrval, `datoff, `datlen, `trace, `locks, `im,
        `counts
      ensures ok <==> |data| == |Contents(old(im))[key]| || CanAppend(old(idx), old(dat), key, data)
      ensures ok ==>
                var kind := if |data| == |Contents(old(im))[key]| then Overwrote else Moved;
                && Became(old(im), im, idx, dat, MapPut(Contents(old(im)), key, data), FreeDelta(kind),
                          TotalDelta(kind))
                && counts == Count(old(counts), kind)
                && Logs(old(locks), locks, InnerActs(kind))
      ensures var same := |data| == |Contents(old(im))[key]|;
              && Within(old(trace), trace, old(locks), InnerActs(if same then Overwrote else Moved))
              && (!same ==> GuardedFirst(old(trace), trace, 4, 0))
      ensures ok && |data| == |Contents(old(im))[key]| ==>
                Switched(old(trace), trace, Contents(old(im)), MapPut(Contents(old(im)), key, data))
      ensures ok && |data| != |Contents(old(im))[key]| ==>
                SwitchedAfter(old(trace), trace, 3, MapDel(Contents(old(im)), key),
                              MapPut(Contents(old(im)), key, data))
      ensures !ok ==> Shown(im, idx, dat, MapDel(Contents(old(im)), key))
    {
      hide Within, Guarded, GuardedFirst, Quiescent, Searchable, Loose, Indexed, Contents, Shows, Shown, ShowedAll,
        Switched, SwitchedAfter, Wrote,
        Logs, Became, WriteAt, ChainOff, IdxStart, Hash, MapPut, MapDel, Storable, RecText, Addr, CanAppend, Located,
        Loaded, LastShows, Extended, Inserted, InsertedLast, Uninserted;
      ghost var I, t0, l0, m := im, trace, locks, Contents(im);
      ContentsKeys(im, key);
      QuiescentParts(im, idx, dat);
      KeysReadable(im, idx, dat);
      StorableFacts(key, data);
      LoadedFacts(im, im.index[key], idxoff, ptrval, idxbuf, datoff, datlen);
      if |data| + 1 != datlen {
        DoDelete(key, k);
        ghost var I1, t1, l1, idx1, dat1 := im, trace, locks, idx, dat;
        BecameShown(I, I1, idx, dat, MapDel(m, key), 1, 0);
        HeadRead(im, idx, dat, key);
        DeletedReady(I, I1, idx, dat, m, key);
        CanAppendSizes(old(idx), old(dat), idx, dat, key, data);
        var ptr := ReadPtr(chainoff);
        ok := AppendRecord(key, data, ptr.value);
        WithinThen(t0, t1, trace, l0, l1, FreeActs(), DatAppendActs() + IdxAppendActs());
        FirstGuarded(t0, t1, trace, 4, 0, l1, DatAppendActs() + IdxAppendActs());
        if !ok {
          UninsertedPlain(I1, im, idx, dat, key);
        } else {
          InsertedPlain(I1, im, idx, dat, key, data, 0, 1);
          InsertedLastPlain(t1, trace, MapDel(m, key), key, data);
          LogsThen(l0, l1, locks, FreeActs(), DatAppendActs() + IdxAppendActs());
          BecameTwice(I, I1, idx1, dat1, im, idx, dat, MapDel(m, key), MapPut(MapDel(m, key), key, data), 1, 0, 0, 1);
          PutAfterDel(m, key, data);
          SwitchedLater(t0, t1, trace, 3, MapDel(m, key), MapPut(m, key, data));
          counts := counts.(stor3 := counts.stor3 + 1);
        }
      } else {
        Overwritten(I, idx, dat, key, data);
        RefillFits(I, idx, dat, I.index[key], data);
        WriteDat(data, datoff, SeekSet);
        im := SetData(I, I.index[key], data);
        LogsNone(l0);
        BecameShown(I, im, idx, dat, MapPut(m, key, data), 0, 0);
        ShownFacts(im, idx, dat, MapPut(m, key, data));
        ShowedNone(t0, m);
        SwitchesNow(t0, t0, trace, m, MapPut(m, key, data), idx, dat);
        ok := true;
        counts := counts.(stor4 := counts.stor4 + 1);
      }
    }

    /** Returns 0, or 1 if the key exists and DB_INSERT was asked for, or -1 if it does not and
        DB_REPLACE was; or the program dies, in exactly the cases that StoreDies lists. */
    method Store(key: Key, data: Data, flag: nat) returns (r: Outcome<int>)
      requires Quiescent(im, idx, dat) && Indexed(im)
      requires CString(key) && CString(data)
      modifies `idx, `dat, `pos, `idxoff, `idxlen, `idxbuf, `datbuf, `ptrval, `datoff, `datlen, `ptroff, `chainoff,
        `trace, `locks,
        `im, `counts
      ensures Indexed(old(im)) && Guarded(old(trace), trace, ChainOff(key))
      ensures r == if StoreDies(old(im), old(idx), old(dat), key, data, flag) then Fail
                   else Done(ReturnCode(KindOf(old(im), key, data, flag)))
      ensures r.Done? ==>
                var kind, m := KindOf(old(im), key, data, flag), Contents(old(im));
                && (!Spoils(key, kind) ==>
                      Became(old(im), im, idx, dat, MapAfter(m, key, data, kind), FreeDelta(kind), TotalDelta(kind)))
                && (Spoils(key, kind) ==> Spoiled(idx, dat, m, Hash(key)))
                && counts == Count(old(counts), kind)
                && Logs(old(locks), locks, Chained(ChainOff(key), Exclusive, InnerActs(kind)))
                && (kind in {Appended, Reused} ==> InsertedLast(old(trace), trace, m, key, data))
                && (kind == Overwrote ==> Switched(old(trace), trace, m, MapPut(m, key, data)))
                && (kind == Moved ==> GuardedFirst(old(trace), trace, 4, 0))
                && (kind == Moved ==> SwitchedAfter(old(trace), trace, 3, MapDel(m, key), MapPut(m, key, data)))
                && (kind in {Exists, Missing} ==> unchanged(`idx) && unchanged(`dat) && unchanged(`trace))
      ensures r.Fail? ==>
                var m := Contents(old(im));
                var m' := if DATLEN_MIN <= |data| + 1 <= DATLEN_MAX && KindOf(old(im), key, data, flag) == Moved
                          then MapDel(m, key) else m;
                Shows(idx, dat, m') && (SEP !in key ==> Shown(im, idx, dat, m'))
    {
      hide Within, Guarded, GuardedFirst, IsInner, Quiescent, Searchable, Loose, Indexed, Contents, Shows, Shown,
        ShowedAll, Switched, SwitchedAfter, Logs,
        Became, ChainOff, Chained, Hash, MapPut, MapDel, CanAppend, Located, Loaded, HasFit, InnerActs, Inserted,
        InsertedLast, Uninserted, Spoiled;
      ghost var I, t0, l0 := im, trace, locks;
      GuardedNone(t0, ChainOff(key));
      QuiescentParts(im, idx, dat);
      ContentsKeys(im, key);
      KeysReadable(im, idx, dat);
      BecameSame(im, idx, dat);
      BecameShown(im, im, idx, dat, Contents(im), 0, 0);
      ShownFacts(im, idx, dat, Contents(im));
      var datLen := |data| + 1;
      if datLen < DATLEN_MIN || datLen > DATLEN_MAX {
        return Fail;
      }
      var found;
      ghost var k;
      found, k := Find(key, true);
      ghost var l1 := locks;
      var rc := 0;
      if !found {
        if HasBit(flag, DB_REPLACE) {
          rc := -1;
          counts := counts.(storerr := counts.storerr + 1);
          LogsNone(l1);
        } else {
          var ok := InsertNew(key, data);
          UnderKey(t0, trace, l0, l1, key, if HasFit(I, |key|, |data| + 1) then Reused else Appended);
          if !ok {
            UninsertedPlain(I, im, idx, dat, key);
            return Fail;
          }
          NowInserted(I, im, idx, dat, key, data, flag);
        }
      } else {
        if HasBit(flag, DB_INSERT) {
          rc := 1;
          counts := counts.(storerr := counts.storerr + 1);
          LogsNone(l1);
        } else {
          var ok := ReplaceOld(key, data, k);
          UnderKey(t0, trace, l0, l1, key, if |data| == |Contents(I)[key]| then Overwrote else Moved);
          if !ok {
            ShownFacts(im, idx, dat, MapDel(Contents(I), key));
            return Fail;
          }
        }
      }
      ghost var l2, kind := locks, KindOf(I, key, data, flag);
      NoInnerActs(kind);
      UnlockChain();
      ChainedLogs(l0, l1, l2, locks, ChainOff(key), Exclusive, InnerActs(kind));
      return Done(rc);
    }

    // ---- Sequential scan ----

    method Rewind()
      modifies `pos, `idxoff
      ensures pos == idxoff == FIRST_REC
    {
      idxoff := (NHASH + 1) * PTR_SZ + 1;
      pos := idxoff;
    }

    method IsBlank() returns (blank: bool)
      ensures blank <==> AllBlank(idxbuf)
    {
      var ptr := 0;
      while ptr < |idxbuf| && idxbuf[ptr] == SPACE
        invariant ptr <= |idxbuf| && forall i | 0 <= i < ptr :: idxbuf[i] == SPACE
      {
        ptr := ptr + 1;
      }
      return ptr == |idxbuf|;
    }

    /** The next record whose key is not all blank, from the current file offset; None at the end.
        It works the same on any files, and stops on all of them. */
    method NextRec() returns (r: Outcome<Option<(Key, Data)>>)
      modifies `pos, `idxoff, `idxlen, `idxbuf, `datbuf, `ptrval, `datoff, `datlen, `locks, `counts
      ensures r == NextPair(idx, dat, old(pos))
      ensures r.Done? && r.value.Some? ==> pos == After(NextLive(idx, old(pos)).at, NextLive(idx, old(pos)).rec)
      ensures counts == if r.Done? && r.value.Some? then old(counts).(nextrec := old(counts).nextrec + 1)
                        else old(counts)
      ensures r.Done? ==> Logs(old(locks), locks, ScanActs())
    {
      hide ParseRec, ReadData, AllBlank, Logs;
      ghost var l0, target := locks, NextLive(idx, pos);
      LockScan();
      ghost var l1 := locks;
      while true
        invariant NextLive(idx, pos) == target && locks == l1 && counts == old(counts)
        decreases |idx| - pos
      {
        ghost var at := pos;
        var rec := ReadIdx(0);
        if rec.Bad? {
          return Fail;
        }
        if rec.Eof? || ptrval < 0 {
          UnlockFree();
          LogsThen(l0, l1, locks, ScanLock(), FreeUnlock());
          return Done(None);
        }
        ReadInside(idx, at);
        var blank := IsBlank();
        if !blank {
          break;
        }
      }
      var key := idxbuf;
      var data := ReadDat();
      if data.Fail? {
        return Fail;
      }
      counts := counts.(nextrec := counts.nextrec + 1);
      UnlockFree();
      LogsThen(l0, l1, locks, ScanLock(), FreeUnlock());
      return Done(Some((key, data.value)));
    }
  }

  lemma DatLockCovers()
    ensures forall b: nat :: Covers(Acquire(DatFd, 0, 0, Exclusive), DatFd, b)
    ensures DatAppendActs() == [Acquire(DatFd, 0, 0, Exclusive)] + [Release(DatFd, 0, 0)]
  {
  }

  lemma IdxLockCovers()
    ensures forall b: nat | b >= APPEND_OFF :: Covers(Acquire(IdxFd, APPEND_OFF, 0, Exclusive), IdxFd, b)
    ensures IdxAppendActs() == [Acquire(IdxFd, APPEND_OFF, 0, Exclusive)] + [Release(IdxFd, APPEND_OFF, 0)]
  {
  }

  lemma ChainInside(key: Key)
    ensures ChainOff(key) + PTR_SZ <= (NHASH + 1) * PTR_SZ
  {
  }

  lemma RefillFits(im: Image, idx: seq<byte>, dat: seq<byte>, j: nat, data: Data)
    requires Searchable(im, idx, dat) && FIRST <= j < |im.tiles| && im.tiles[j].Rec? && |data| == |im.tiles[j].data|
    ensures |WriteAt(dat, im.tiles[j].datoff, data + [NEWLINE])| == |dat|
  {
    hide WriteAt, Stored;
    Basics(im, idx, dat);
    RefillSize(im, idx, dat, j, data);
  }

  /** The first two writes of a reuse lengthen neither file. */
  lemma ReuseSizes(im: Image, im0: Image, idx: seq<byte>, dat: seq<byte>, j: nat, key: Key, data: Data, ptr: int)
    requires Freed(im, im0, idx, dat, j) && im0.tiles[j].Rec? && 0 <= ptr <= PTR_MAX
    requires |key| == |im0.tiles[j].key| && |data| == |im0.tiles[j].data|
    ensures var t := im0.tiles[j];
            && |WriteAt(dat, t.datoff, data + [NEWLINE])| == |dat|
            && |WriteAt(idx, IdxStart(im0.tiles, j), RecPtrText(ptr) + RecBody(key, t.datoff, |t.data| + 1))| == |idx|
  {
    hide WriteAt, Stored, Shaped, Partitioned, Indexed, IdxStart, RecPtrText, RecBody, Searchable, Loose;
    LooseFacts(im0, idx, dat, j);
    RefillFits(im0, idx, dat, j, data);
    Basics(im0, idx, dat);
    PtrTextRoundTrip(ptr);
    RewriteSize(im0, idx, dat, j, RecPtrText(ptr), key);
  }

  lemma StageSize(im: Image, j: nat, pred: nat, stage: nat, idx: seq<byte>, dat: seq<byte>)
    requires AtStage(im, j, pred, stage, idx, dat)
    ensures |idx| == IdxStart(im.tiles, |im.tiles|)
  {
    hide Deleting, Stored, IdxStart;
    HeaderThere(Deleting(im, j, pred, stage), idx, dat);
  }

  lemma UnderFreeLock(before: seq<Snap>, after: seq<Snap>, l0: seq<Act>, l1: seq<Act>)
    requires Logs(l0, l1, FreeLock()) && Within(before, after, l1, [])
    ensures Guarded(before, after, 0) && Within(before, after, l0, FreeActs())
  {
    hide Within, Guarded, Owns;
    JustTaken(l0, Acquire(IdxFd, 0, 1, Exclusive), IdxFd, 0);
    GuardedWithin(before, after, l1, [], 0);
    WithinNone(before, l0, FreeLock());
    WithinThen(before, before, after, l0, l1, FreeLock(), []);
    WithinMore(before, after, l0, FreeLock() + [], FreeUnlock());
    assert FreeLock() + [] + FreeUnlock() == FreeActs();
  }

  lemma UnderKey(before: seq<Snap>, after: seq<Snap>, l0: seq<Act>, l1: seq<Act>, key: Key, kind: Kind)
    requires Logs(l0, l1, ChainLock(ChainOff(key), Exclusive)) && Within(before, after, l1, InnerActs(kind))
    ensures Guarded(before, after, ChainOff(key))
  {
    hide Within, Guarded, HashPrefix;
    UnderChainLock(before, after, l0, l1, Hash(key), InnerActs(kind));
  }

  lemma UnderDelete(before: seq<Snap>, after: seq<Snap>, l0: seq<Act>, l1: seq<Act>, key: Key)
    requires Logs(l0, l1, ChainLock(ChainOff(key), Exclusive)) && Within(before, after, l1, FreeActs())
    ensures Guarded(before, after, ChainOff(key))
  {
    hide Within, Guarded, HashPrefix;
    UnderChainLock(before, after, l0, l1, Hash(key), FreeActs());
  }

  lemma GuardedNone(t: seq<Snap>, b: nat)
    ensures Guarded(t, t, b)
  {
  }

  lemma ChainOffIs(key: Key)
    ensures ChainOff(key) == ChainAt(Hash(key))
  {
  }

  /** The counter that each way through db_store increments. */
  function Count(counts: Counts, kind: Kind): Counts {
    match kind
    case Appended => counts.(stor1 := counts.stor1 + 1)
    case Reused => counts.(stor2 := counts.stor2 + 1)
    case Moved => counts.(stor3 := counts.stor3 + 1)
    case Overwrote => counts.(stor4 := counts.stor4 + 1)
    case _ => counts.(storerr := counts.storerr + 1)
  }

  /** The lock calls that each way makes under the chain lock. */
  function InnerActs(kind: Kind): seq<Act> {
    match kind
    case Appended => AppendActs()
    case Reused => ReuseActs()
    case Moved => MoveActs()
    case _ => []
  }

  lemma NoInnerActs(kind: Kind)
    ensures kind in {Exists, Missing} ==> InnerActs(kind) == []
  {
  }

  lemma CanAppendSizes(idx: seq<byte>, dat: seq<byte>, idx': seq<byte>, dat': seq<byte>, key: Key, data: Data)
    requires |idx| == |idx'| && |dat| == |dat'|
    ensures CanAppend(idx, dat, key, data) <==> CanAppend(idx', dat', key, data)
  {
  }

  lemma DeletedReady(im: Image, im1: Image, idx: seq<byte>, dat: seq<byte>, m: map<Key, Data>, key: Key)
    requires Became(im, im1, idx, dat, MapDel(m, key), 1, 0)
    ensures Indexed(im1) && key !in im1.index && Contents(im1) == MapDel(m, key)
  {
    hide Shows, IdxStart;
    QuiescentParts(im1, idx, dat);
    Gone(im1, m, key);
  }

  lemma LooseShown(im: Image, im': Image, idx: seq<byte>, dat: seq<byte>, j: nat)
    requires Freed(im, im', idx, dat, j)
    ensures Indexed(im) && Shows(idx, dat, Contents(im))
    ensures |im.next| == |im.tiles|
  {
    hide Shows, IdxStart, Contents;
    ShownNow(im', idx, dat);
  }

  lemma ReadInside(idx: seq<byte>, at: nat)
    ensures ParseRec(idx, at).Read? ==> at < |idx|
  {
  }

  lemma ShowsAt(idx: seq<byte>, dat: seq<byte>, m: map<Key, Data>, key: Key)
    requires Shows(idx, dat, m)
    ensures Lookup(idx, dat, key) == Done(MapGet(m, key))
  {
  }

  lemma DelAbsent(m: map<Key, Data>, key: Key)
    ensures key !in m ==> MapDel(m, key) == m
  {
  }

  lemma LocatedFacts(im: Image, key: Key, k: nat, ptroff: nat)
    requires Located(im, key, k, ptroff)
    ensures 1 + Hash(key) < |im.lists| && k <= |im.lists[1 + Hash(key)]|
  {
  }

  lemma FreeActsAre()
    ensures FreeLock() + FreeUnlock() == FreeActs()
  {
  }

  lemma FitsIs(t: Tile, keylen: nat, datlen: nat)
    requires t.Rec?
    ensures Fits(t, keylen, datlen) <==> |t.key| == keylen && |t.data| + 1 == datlen
  {
  }

  lemma QuiescentFacts(im: Image, idx: seq<byte>, dat: seq<byte>)
    requires Quiescent(im, idx, dat)
    ensures Searchable(im, idx, dat) && dat == DatFile(im.tiles)
  {
  }
}
