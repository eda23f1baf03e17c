/** What a pair of database files holds: the tiles of both files, the lists that link the index
    records, and the finite map that the chains spell out. */
module Images {
  import opened Text
  import opened Records
  import opened Tiling
  import opened Links

  type Key = seq<byte>
  type Data = seq<byte>

  /** One tile of the index file, with the data record that an index record names. */
  datatype Tile =
    | Head(ptr: seq<byte>)
    | Newline
    | Rec(ptr: seq<byte>, key: Key, datoff: nat, data: Data)

  function IdxBytes(t: Tile): seq<byte> {
    match t
    case Head(ptr) => ptr
    case Newline => [NEWLINE]
    case Rec(ptr, key, datoff, data) => ptr + RecBody(key, datoff, |data| + 1)
  }

  function DatBytes(t: Tile): seq<byte> {
    if t.Rec? then t.data + [NEWLINE] else []
  }

  function IdxParts(ts: seq<Tile>): seq<seq<byte>> {
    seq(|ts|, i requires 0 <= i < |ts| => IdxBytes(ts[i]))
  }

  function DatParts(ts: seq<Tile>): seq<seq<byte>> {
    seq(|ts|, i requires 0 <= i < |ts| => DatBytes(ts[i]))
  }

  function IdxFile(ts: seq<Tile>): seq<byte> { Flatten(IdxParts(ts)) }

  function DatFile(ts: seq<Tile>): seq<byte> { Flatten(DatParts(ts)) }

  function IdxStart(ts: seq<Tile>, j: nat): nat
    requires j <= |ts|
  {
    Start(IdxParts(ts), j)
  }

  function DatStart(ts: seq<Tile>, j: nat): nat
    requires j <= |ts|
  {
    Start(DatParts(ts), j)
  }

  /** The file offset that names tile n; 0 is the null pointer. */
  function Addr(ts: seq<Tile>, n: nat): nat
    requires n <= |ts|
  {
    if n == 0 then 0 else IdxStart(ts, n)
  }

  ghost predicate GoodTile(t: Tile, j: nat) {
    if j < HEADS then t.Head? && |t.ptr| == PTR_SZ
    else if j == HEADS then t.Newline?
    else
      && t.Rec? && |t.ptr| == PTR_SZ
      && CString(t.key) && SEP !in t.key && CString(t.data)
      && DATLEN_MIN <= |t.data| + 1 <= DATLEN_MAX
      && IDXLEN_MIN <= |RecText(t.key, t.datoff, |t.data| + 1)| <= IDXLEN_MAX
  }

  ghost predicate GoodPointer(ts: seq<Tile>, j: nat, n: nat)
    requires j < |ts|
  {
    !ts[j].Newline? && n <= |ts| ==> Atol(ts[j].ptr) == Addr(ts, n)
  }

  datatype Image = Image(
    tiles: seq<Tile>,
    next: seq<nat>,
    owner: seq<nat>,
    lists: seq<seq<nat>>,
    index: map<Key, nat>)

  /** Well-formed tiles whose data extents lie in the data file in the same order, and whose
      pointers name tiles. */
  ghost predicate Shaped(im: Image) {
    && |im.next| == |im.tiles| >= FIRST
    && (forall j | 0 <= j < |im.tiles| ::
          if j < HEADS then im.tiles[j].Head? else if j == HEADS then im.tiles[j].Newline? else im.tiles[j].Rec?)
    && (forall j | 0 <= j < |im.tiles| :: im.next[j] == 0 || FIRST <= im.next[j] < |im.tiles|)
    && forall j {:trigger Placed(im.tiles, im.next, j)} | 0 <= j < |im.tiles| :: Placed(im.tiles, im.next, j)
  }

  ghost predicate Placed(ts: seq<Tile>, next: seq<nat>, j: nat)
    requires j < |ts| == |next|
  {
    && GoodTile(ts[j], j)
    && (FIRST <= j && ts[j].Rec? ==> ts[j].datoff == DatStart(ts, j))
    && GoodPointer(ts, j, next[j])
  }

  /** The index file is exactly these tiles; the data file starts with their data records. */
  ghost predicate Stored(im: Image, idx: seq<byte>, dat: seq<byte>) {
    && Shaped(im)
    && idx == IdxFile(im.tiles)
    && DatFile(im.tiles) <= dat
  }

  const HASH_MOD: nat := 0x1_0000_0000_0000_0000

  function Signed(c: byte): int {
    if c < 128 then c else c - 256
  }

  /** The running sum of _db_hash after n characters, in an unsigned 64-bit word. */
  function HashPrefix(key: Key, n: nat): nat
    requires n <= |key|
  {
    if n == 0 then 0 else (HashPrefix(key, n - 1) + Signed(key[n - 1]) * n) % HASH_MOD
  }

  function Hash(key: Key): (h: nat)
    ensures h < NHASH
  {
    HashPrefix(key, |key|) % NHASH
  }

  /** The signed characters, each times its place, without any wrap-around. */
  function Weighted(key: Key): int {
    if key == [] then 0 else Weighted(key[..|key| - 1]) + |key| * Signed(key[|key| - 1])
  }

  /** Wrapping at every step is wrapping once at the end. */
  lemma {:induction false} HashIsWeighted(key: Key, n: nat)
    requires n <= |key|
    ensures HashPrefix(key, n) == Weighted(key[..n]) % HASH_MOD
    ensures n == |key| ==> Hash(key) == Weighted(key) % HASH_MOD % NHASH
  {
    if n > 0 {
      HashIsWeighted(key, n - 1);
      assert key[..n][..n - 1] == key[..n - 1];
      var term := Signed(key[n - 1]) * n;
      assert Weighted(key[..n]) == Weighted(key[..n - 1]) + term;
      WrapsOnce(Weighted(key[..n - 1]), term);
    }
    assert n == |key| ==> key[..n] == key;
  }

  lemma WrapsOnce(a: int, b: int)
    ensures (a % HASH_MOD + b) % HASH_MOD == (a + b) % HASH_MOD
  {
  }

  /** Keys whose order matters, and one with a negative character. */
  lemma SampleHashes()
    ensures Hash([97, 98]) == 19 && Hash([98, 97]) == 18
    ensures Hash([200]) == (HASH_MOD - 56) % NHASH
  {
    assert HashPrefix([97, 98], 1) == 97 && HashPrefix([98, 97], 1) == 98;
    assert HashPrefix([97, 98], 2) == 293 && HashPrefix([98, 97], 2) == 292;
    assert HashPrefix([200], 1) == HASH_MOD - 56;
  }

  ghost predicate Live(owner: seq<nat>, j: nat) {
    FIRST <= j < |owner| && FREE < owner[j] < ORPHAN
  }

  /** The chains hold each key once, on the chain of its hash, and free records are blank. */
  ghost predicate Indexed(im: Image) {
    && |im.owner| == |im.tiles|
    && (forall j | FIRST <= j < |im.tiles| :: im.tiles[j].Rec?)
    && (forall k | k in im.index :: FIRST <= im.index[k] < |im.tiles|
                                   && im.owner[im.index[k]] == 1 + Hash(k) && im.tiles[im.index[k]].key == k)
    && (forall j {:trigger Live(im.owner, j)} | FIRST <= j < |im.tiles| && Live(im.owner, j) ::
          im.tiles[j].key in im.index && im.index[im.tiles[j].key] == j)
    && (forall j | FIRST <= j < |im.tiles| && im.owner[j] == FREE ::
          im.tiles[j].key == Blanks(|im.tiles[j].key|) && im.tiles[j].data == Blanks(|im.tiles[j].data|))
  }

  ghost function Contents(im: Image): map<Key, Data>
    requires Indexed(im)
  {
    map k | k in im.index :: im.tiles[im.index[k]].data
  }

  /** Files on which every lookup works, though records may have been orphaned in mid-operation
      and data appended that no record names yet. */
  ghost predicate Searchable(im: Image, idx: seq<byte>, dat: seq<byte>) {
    && Stored(im, idx, dat)
    && Partitioned(im.next, im.owner, im.lists)
    && Indexed(im)
  }

  /** Files between operations: no orphans, both files tiled to their ends, every record in
      pointer range. */
  ghost predicate Quiescent(im: Image, idx: seq<byte>, dat: seq<byte>) {
    && Searchable(im, idx, dat)
    && dat == DatFile(im.tiles)
    && (forall j | FIRST <= j < |im.tiles| :: im.owner[j] != ORPHAN && IdxStart(im.tiles, j) <= PTR_MAX)
  }

  // ---- Offsets ----

  lemma SameSizes(ts: seq<Tile>, us: seq<Tile>)
    requires |ts| <= |us|
    requires forall j | 0 <= j < |ts| ::
               |IdxBytes(us[j])| == |IdxBytes(ts[j])| && |DatBytes(us[j])| == |DatBytes(ts[j])|
    ensures forall j | 0 <= j <= |ts| :: IdxStart(us, j) == IdxStart(ts, j) && DatStart(us, j) == DatStart(ts, j)
    ensures forall j | 0 <= j <= |ts| :: Addr(us, j) == Addr(ts, j)
  {
    forall j | 0 <= j <= |ts| ensures IdxStart(us, j) == IdxStart(ts, j) && DatStart(us, j) == DatStart(ts, j) {
      StartSame(IdxParts(us), IdxParts(ts), j);
      StartSame(DatParts(us), DatParts(ts), j);
    }
  }

  /** Header pointers sit six bytes apart; records start after the newline; distinct tiles have
      distinct offsets, in order. */
  lemma {:induction false} HeadStart(im: Image, j: nat)
    requires Shaped(im) && j <= HEADS
    ensures IdxStart(im.tiles, j) == j * PTR_SZ
  {
    if j > 0 {
      HeadStart(im, j - 1);
      assert Placed(im.tiles, im.next, j - 1);
    }
  }

  lemma RecStart(im: Image, j: nat)
    requires Shaped(im) && FIRST <= j <= |im.tiles|
    ensures IdxStart(im.tiles, FIRST) == HEADS * PTR_SZ + 1
    ensures IdxStart(im.tiles, j) >= HEADS * PTR_SZ + 1
  {
    HeadStart(im, HEADS);
    assert Placed(im.tiles, im.next, HEADS);
    if FIRST < j {
      StartOrder(IdxParts(im.tiles), FIRST, j);
    }
  }

  lemma AddrOrder(im: Image, i: nat, j: nat)
    requires Shaped(im) && i < j <= |im.tiles|
    ensures IdxStart(im.tiles, i) < IdxStart(im.tiles, j)
  {
    StartOrder(IdxParts(im.tiles), i, j);
    assert Placed(im.tiles, im.next, i);
  }

  // ---- Reading ----

  lemma SliceSlice(file: seq<byte>, off: nat, b: seq<byte>, front: seq<byte>)
    requires off + |b| <= |file| && file[off..off + |b|] == b && front <= b
    ensures file[off..off + |front|] == front
  {
    assert b[..|front|] == front;
    assert file[off..off + |front|] == file[off..off + |b|][..|front|];
  }

  /** Reading the pointer field of any tile gives the offset of the tile it names. */
  lemma PtrRead(im: Image, idx: seq<byte>, dat: seq<byte>, j: nat)
    requires Stored(im, idx, dat) && j < |im.tiles| && j != HEADS
    ensures ParsePtr(idx, IdxStart(im.tiles, j)) == Done(Addr(im.tiles, im.next[j]))
  {
    hide Start, Flatten, RecBody, Atol, DatBytes;
    var off, b := IdxStart(im.tiles, j), IdxBytes(im.tiles[j]);
    assert Placed(im.tiles, im.next, j);
    TileAt(IdxParts(im.tiles), j);
    SliceSlice(idx, off, b, im.tiles[j].ptr);
  }

  /** Reading the index record at a record tile gives that tile's fields. */
  lemma RecRead(im: Image, idx: seq<byte>, dat: seq<byte>, j: nat)
    requires Stored(im, idx, dat) && FIRST <= j < |im.tiles|
    ensures var t := im.tiles[j];
            ParseRec(idx, IdxStart(im.tiles, j))
            == Read(IdxRec(Addr(im.tiles, im.next[j]), |RecText(t.key, t.datoff, |t.data| + 1)|, t.key, t.datoff,
                           |t.data| + 1))
    ensures IdxStart(im.tiles, j) + |IdxBytes(im.tiles[j])| == IdxStart(im.tiles, j + 1) <= |idx|
  {
    hide Flatten, RecBody, Atol, ParseRec, DatBytes, RecText;
    var off, t := IdxStart(im.tiles, j), im.tiles[j];
    var b := IdxBytes(t);
    assert Placed(im.tiles, im.next, j);
    TileAt(IdxParts(im.tiles), j);
    assert idx == idx[..off] + b + idx[off + |b|..];
    RecordRoundTrip(idx[..off], t.ptr, t.key, t.datoff, |t.data| + 1, idx[off + |b|..]);
  }

  /** Reading the extent that a record names gives its data and the newline. */
  lemma DatRead(im: Image, idx: seq<byte>, dat: seq<byte>, j: nat)
    requires Stored(im, idx, dat) && FIRST <= j < |im.tiles|
    ensures ReadAt(dat, im.tiles[j].datoff, |im.tiles[j].data| + 1) == Some(im.tiles[j].data + [NEWLINE])
  {
    TileAt(DatParts(im.tiles), j);
    var file, off, b := DatFile(im.tiles), im.tiles[j].datoff, im.tiles[j].data + [NEWLINE];
    assert Placed(im.tiles, im.next, j);
    assert dat[off..off + |b|] == file[off..off + |b|];
  }

  // ---- Writing ----

  function SetPtr(im: Image, j: nat, text: seq<byte>, n: nat): Image
    requires j < |im.tiles| && j < |im.next| && !im.tiles[j].Newline?
  {
    im.(tiles := im.tiles[j := im.tiles[j].(ptr := text)], next := im.next[j := n])
  }

  function SetRec(im: Image, j: nat, text: seq<byte>, n: nat, key: Key): Image
    requires j < |im.tiles| && j < |im.next| && im.tiles[j].Rec?
  {
    im.(tiles := im.tiles[j := im.tiles[j].(ptr := text, key := key)], next := im.next[j := n])
  }

  function SetData(im: Image, j: nat, data: Data): Image
    requires j < |im.tiles| && im.tiles[j].Rec?
  {
    im.(tiles := im.tiles[j := im.tiles[j].(data := data)])
  }

  function AddRec(im: Image, t: Tile, n: nat): Image {
    im.(tiles := im.tiles + [t], next := im.next + [n], owner := im.owner + [ORPHAN])
  }

  /** Changing one tile for another of the same sizes and a good pointer keeps the shape. */
  lemma ReplaceTile(im: Image, j: nat, t: Tile, n: nat)
    requires Shaped(im) && j < |im.tiles| && j != HEADS && GoodTile(t, j)
    requires t.Rec? ==> t.datoff == im.tiles[j].datoff
    requires |IdxBytes(t)| == |IdxBytes(im.tiles[j])| && |DatBytes(t)| == |DatBytes(im.tiles[j])|
    requires (n == 0 || FIRST <= n < |im.tiles|) && Atol(t.ptr) == Addr(im.tiles, n)
    ensures Shaped(im.(tiles := im.tiles[j := t], next := im.next[j := n]))
    ensures forall i | 0 <= i <= |im.tiles| ::
              IdxStart(im.tiles[j := t], i) == IdxStart(im.tiles, i)
                  && DatStart(im.tiles[j := t], i) == DatStart(im.tiles, i)
  {
    hide RecText, Atol, IdxBytes, DatBytes;
    var us, next := im.tiles[j := t], im.next[j := n];
    SameSizes(im.tiles, us);
    var im' := im.(tiles := us, next := next);
    forall i | 0 <= i < |us| ensures Placed(im'.tiles, im'.next, i) {
      assert Placed(im.tiles, im.next, i);
    }
  }

  lemma IdxFileUpdate(ts: seq<Tile>, j: nat, t: Tile)
    requires j < |ts| && |IdxBytes(t)| == |IdxBytes(ts[j])|
    ensures IdxFile(ts[j := t]) == WriteAt(IdxFile(ts), IdxStart(ts, j), IdxBytes(t))
  {
    assert IdxParts(ts[j := t]) == IdxParts(ts)[j := IdxBytes(t)];
    FlattenUpdate(IdxParts(ts), j, IdxBytes(t));
  }

  lemma IdxFileFront(ts: seq<Tile>, j: nat, t: Tile, front: seq<byte>)
    requires j < |ts| && |front| <= |IdxBytes(ts[j])|
    requires IdxBytes(t) == front + IdxBytes(ts[j])[|front|..]
    ensures IdxFile(ts[j := t]) == WriteAt(IdxFile(ts), IdxStart(ts, j), front)
  {
    assert IdxParts(ts[j := t]) == IdxParts(ts)[j := IdxBytes(t)];
    FlattenUpdateFront(IdxParts(ts), j, front);
  }

  lemma IdxFileSame(ts: seq<Tile>, j: nat, t: Tile)
    requires j < |ts| && IdxBytes(t) == IdxBytes(ts[j])
    ensures IdxFile(ts[j := t]) == IdxFile(ts)
  {
    assert IdxParts(ts[j := t]) == IdxParts(ts);
  }

  lemma DatFileSame(ts: seq<Tile>, j: nat, t: Tile)
    requires j < |ts| && DatBytes(t) == DatBytes(ts[j])
    ensures DatFile(ts[j := t]) == DatFile(ts)
  {
    assert DatParts(ts[j := t]) == DatParts(ts);
  }

  /** Overwriting an extent leaves whatever follows the named extents alone. */
  lemma DatFileUpdate(ts: seq<Tile>, j: nat, t: Tile, dat: seq<byte>)
    requires j < |ts| && |DatBytes(t)| == |DatBytes(ts[j])|
    requires DatFile(ts) <= dat
    ensures DatFile(ts[j := t]) <= WriteAt(dat, DatStart(ts, j), DatBytes(t))
    ensures |WriteAt(dat, DatStart(ts, j), DatBytes(t))| == |dat|
    ensures |DatFile(ts[j := t])| == |DatFile(ts)|
  {
    hide IdxBytes, RecBody, DatBytes, Flatten;
    assert DatParts(ts[j := t]) == DatParts(ts)[j := DatBytes(t)];
    FlattenUpdate(DatParts(ts), j, DatBytes(t));
    TileAt(DatParts(ts), j);
    var file := DatFile(ts);
    assert dat == file + dat[|file|..];
    OverwriteInside(file, dat[|file|..], DatStart(ts, j), DatBytes(t));
  }

  lemma FilesAppend(ts: seq<Tile>, t: Tile)
    ensures IdxFile(ts + [t]) == IdxFile(ts) + IdxBytes(t)
    ensures DatFile(ts + [t]) == DatFile(ts) + DatBytes(t)
  {
    assert IdxParts(ts + [t]) == IdxParts(ts) + [IdxBytes(t)];
    assert DatParts(ts + [t]) == DatParts(ts) + [DatBytes(t)];
    FlattenAppend(IdxParts(ts), IdxBytes(t));
    FlattenAppend(DatParts(ts), DatBytes(t));
  }

  lemma SwapPtr(t: Tile, text: seq<byte>, j: nat)
    requires GoodTile(t, j) && j != HEADS && |text| == PTR_SZ
    ensures !t.Newline? && GoodTile(t.(ptr := text), j)
    ensures IdxBytes(t.(ptr := text)) == text + IdxBytes(t)[PTR_SZ..]
    ensures |IdxBytes(t)| >= PTR_SZ && |IdxBytes(t.(ptr := text))| == |IdxBytes(t)|
    ensures DatBytes(t.(ptr := text)) == DatBytes(t)
  {
    if t.Rec? {
      var body := RecBody(t.key, t.datoff, |t.data| + 1);
      assert (t.ptr + body)[PTR_SZ..] == body;
    }
  }

  /** _db_writeptr at a tile. */
  lemma PtrWritten(im: Image, idx: seq<byte>, dat: seq<byte>, j: nat, text: seq<byte>, n: nat)
    requires Stored(im, idx, dat) && j < |im.tiles| && j != HEADS
    requires n == 0 || FIRST <= n < |im.tiles|
    requires |text| == PTR_SZ && Atol(text) == Addr(im.tiles, n)
    ensures Stored(SetPtr(im, j, text, n), WriteAt(idx, IdxStart(im.tiles, j), text), dat)
    ensures forall i | 0 <= i <= |im.tiles| :: IdxStart(SetPtr(im, j, text, n).tiles, i) == IdxStart(im.tiles, i)
  {
    hide RecText, Atol, IdxBytes, DatBytes, IdxFile, DatFile, IdxStart, DatStart, WriteAt, GoodTile;
    assert Placed(im.tiles, im.next, j);
    var t := im.tiles[j].(ptr := text);
    SwapPtr(im.tiles[j], text, j);
    ReplaceTile(im, j, t, n);
    IdxFileFront(im.tiles, j, t, text);
    DatFileSame(im.tiles, j, t);
  }

  lemma SwapKey(t: Tile, text: seq<byte>, key: Key, j: nat)
    requires FIRST <= j && GoodTile(t, j)
    requires |text| == PTR_SZ && CString(key) && SEP !in key && |key| == |t.key|
    ensures GoodTile(t.(ptr := text, key := key), j)
    ensures |IdxBytes(t.(ptr := text, key := key))| == |IdxBytes(t)|
  {
    assert |RecText(key, t.datoff, |t.data| + 1)| == |RecText(t.key, t.datoff, |t.data| + 1)|;
  }

  /** _db_writeidx over a record whose key has the same length: it reproduces the old size exactly. */
  lemma RecWritten(im: Image, idx: seq<byte>, dat: seq<byte>, j: nat, text: seq<byte>, n: nat, key: Key)
    requires Stored(im, idx, dat) && FIRST <= j < |im.tiles|
    requires n == 0 || FIRST <= n < |im.tiles|
    requires |text| == PTR_SZ && Atol(text) == Addr(im.tiles, n)
    requires CString(key) && SEP !in key && |key| == |im.tiles[j].key|
    ensures Stored(SetRec(im, j, text, n, key),
                   WriteAt(idx, IdxStart(im.tiles, j), IdxBytes(im.tiles[j].(ptr := text, key := key))), dat)
    ensures forall i | 0 <= i <= |im.tiles| :: IdxStart(SetRec(im, j, text, n, key).tiles, i) == IdxStart(im.tiles, i)
  {
    assert Placed(im.tiles, im.next, j);
    var t := im.tiles[j].(ptr := text, key := key);
    SwapKey(im.tiles[j], text, key, j);
    ReplaceTile(im, j, t, n);
    IdxFileUpdate(im.tiles, j, t);
    DatFileSame(im.tiles, j, t);
  }

  /** _db_writedat over an extent of the same length. */
  lemma DatWritten(im: Image, idx: seq<byte>, dat: seq<byte>, j: nat, data: Data)
    requires Stored(im, idx, dat) && FIRST <= j < |im.tiles|
    requires CString(data) && |data| == |im.tiles[j].data|
    ensures Stored(SetData(im, j, data), idx, WriteAt(dat, im.tiles[j].datoff, data + [NEWLINE]))
    ensures forall i | 0 <= i <= |im.tiles| :: IdxStart(SetData(im, j, data).tiles, i) == IdxStart(im.tiles, i)
    ensures dat == DatFile(im.tiles) ==>
              WriteAt(dat, im.tiles[j].datoff, data + [NEWLINE]) == DatFile(SetData(im, j, data).tiles)
  {
    assert Placed(im.tiles, im.next, j);
    var t := im.tiles[j].(data := data);
    ReplaceTile(im, j, t, im.next[j]);
    assert im.next[j := im.next[j]] == im.next;
    IdxFileSame(im.tiles, j, t);
    DatFileUpdate(im.tiles, j, t, dat);
  }

  lemma PlacedStays(im: Image, im': Image, i: nat)
    requires |im.next| == |im.tiles| && |im'.next| == |im'.tiles| && i < |im.tiles| <= |im'.tiles|
    requires Placed(im.tiles, im.next, i) && im.next[i] <= |im.tiles|
    requires im'.tiles[i] == im.tiles[i] && im'.next[i] == im.next[i]
    requires Addr(im'.tiles, im.next[i]) == Addr(im.tiles, im.next[i])
             && DatStart(im'.tiles, i) == DatStart(im.tiles, i)
    ensures Placed(im'.tiles, im'.next, i)
  {
  }

  lemma AppendStarts(ts: seq<Tile>, t: Tile)
    ensures forall j | 0 <= j <= |ts| ::
              IdxStart(ts + [t], j) == IdxStart(ts, j) && DatStart(ts + [t], j) == DatStart(ts, j)
    ensures forall j | 0 <= j <= |ts| :: Addr(ts + [t], j) == Addr(ts, j)
  {
    SameSizes(ts, ts + [t]);
  }

  lemma NewPlaced(im': Image, t: Tile, n: nat)
    requires |im'.next| == |im'.tiles| > FIRST && im'.tiles[|im'.tiles| - 1] == t && im'.next[|im'.tiles| - 1] == n
    requires GoodTile(t, |im'.tiles| - 1) && t.Rec?
    requires t.datoff == DatStart(im'.tiles, |im'.tiles| - 1)
    requires n < |im'.tiles| && Atol(t.ptr) == Addr(im'.tiles, n)
    ensures Placed(im'.tiles, im'.next, |im'.tiles| - 1)
  {
  }

  lemma AddTile(im: Image, t: Tile, n: nat)
    requires Shaped(im) && GoodTile(t, |im.tiles|)
    requires t.datoff == |DatFile(im.tiles)|
    requires (n == 0 || FIRST <= n < |im.tiles|) && Atol(t.ptr) == Addr(im.tiles, n)
    ensures Shaped(AddRec(im, t, n))
    ensures forall i | 0 <= i <= |im.tiles| :: IdxStart(im.tiles + [t], i) == IdxStart(im.tiles, i)
  {
    hide IdxBytes, DatBytes, RecText, Atol, Start, Flatten;
    var im' := AddRec(im, t, n);
    AppendStarts(im.tiles, t);
    forall i | 0 <= i < |im.tiles| ensures Placed(im'.tiles, im'.next, i) {
      assert Placed(im.tiles, im.next, i);
      PlacedStays(im, im', i);
    }
    NewPlaced(im', t, n);
  }

  /** Appending a data record and then the index record that names it. */
  lemma RecAppended(im: Image, idx: seq<byte>, dat: seq<byte>, t: Tile, n: nat)
    requires Stored(im, idx, dat) && GoodTile(t, |im.tiles|)
    requires t.datoff == |DatFile(im.tiles)| && dat == DatFile(im.tiles) + DatBytes(t)
    requires (n == 0 || FIRST <= n < |im.tiles|) && Atol(t.ptr) == Addr(im.tiles, n)
    ensures Stored(AddRec(im, t, n), idx + IdxBytes(t), dat) && dat == DatFile(im.tiles + [t])
    ensures forall i | 0 <= i <= |im.tiles| :: IdxStart(im.tiles + [t], i) == IdxStart(im.tiles, i)
    ensures IdxStart(im.tiles, |im.tiles|) == |idx|
  {
    FilesAppend(im.tiles, t);
    AddTile(im, t, n);
  }
}
