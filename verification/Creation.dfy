/** The files of a freshly created database. */
module Creation {
  import opened Text
  import opened Records
  import opened Links
  import opened Images
  import opened Lookups
  import opened Effects

  function ZeroHeads(n: nat): seq<Tile> {
    seq(n, _ => Head(PtrText(0)))
  }

  /** The header: the free-list pointer, every chain pointer, and a newline. */
  function FreshTiles(): seq<Tile> {
    ZeroHeads(HEADS) + [Newline]
  }

  ghost function FreshImage(): Image {
    Image(FreshTiles(), seq(FIRST, _ => 0), seq(FIRST, _ => ORPHAN), seq(HEADS, _ => []), map[])
  }

  lemma ZeroText(n: nat)
    ensures IdxFile(ZeroHeads(n + 1)) == IdxFile(ZeroHeads(n)) + PtrText(0)
    ensures DatFile(ZeroHeads(n + 1)) == DatFile(ZeroHeads(n))
  {
    hide PtrText;
    assert ZeroHeads(n + 1) == ZeroHeads(n) + [Head(PtrText(0))];
    FilesAppend(ZeroHeads(n), Head(PtrText(0)));
  }

  lemma {:induction false} ZeroData(n: nat)
    ensures DatFile(ZeroHeads(n)) == []
  {
    if n > 0 {
      ZeroText(n - 1);
      ZeroData(n - 1);
    }
  }

  lemma FreshFiles()
    ensures IdxFile(FreshTiles()) == IdxFile(ZeroHeads(HEADS)) + [NEWLINE]
    ensures DatFile(FreshTiles()) == []
    ensures IdxFile(ZeroHeads(0)) == []
  {
    hide PtrText;
    FilesAppend(ZeroHeads(HEADS), Newline);
    ZeroData(HEADS);
  }

  lemma FreshShape()
    ensures Shaped(FreshImage())
  {
    hide PtrText;
    PtrTextRoundTrip(0);
    var im := FreshImage();
    forall j | 0 <= j < |im.tiles| ensures Placed(im.tiles, im.next, j) {}
  }

  /** A fresh database is quiescent, empty and shows the empty map. */
  lemma FreshIsEmpty()
    ensures Quiescent(FreshImage(), IdxFile(FreshTiles()), [])
    ensures Contents(FreshImage()) == map[] && TallyOf(FreshImage()) == Tally(0, 0)
    ensures Shows(IdxFile(FreshTiles()), [], map[])
  {
    hide PtrText, Shaped, Shows, IdxFile, DatFile, FreshTiles;
    FreshShape();
    FreshFiles();
    FreshLength();
    var im := FreshImage();
    forall l | 0 <= l < HEADS ensures Linked(im.next, l, im.lists[l]) && Owned(im.owner, l, im.lists[l]) {}
    assert Contents(im) == map[];
    ShownNow(im, IdxFile(FreshTiles()), []);
  }

  lemma FreshLength()
    ensures |FreshTiles()| == FIRST
  {
  }
}
