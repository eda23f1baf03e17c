/** A file as a run of adjacent tiles, and what in-place and appending writes do to it. */
module Tiling {
  import opened Text
  import opened Records

  function Flatten(parts: seq<seq<byte>>): (file: seq<byte>)
    ensures |file| == Start(parts, |parts|)
  {
    if |parts| == 0 then [] else
      StartSame(parts, parts[..|parts| - 1], |parts| - 1);
      Flatten(parts[..|parts| - 1]) + parts[|parts| - 1]
  }

  /** Offset at which tile i begins; for i == |parts|, the end of the file. */
  function Start(parts: seq<seq<byte>>, i: nat): nat
    requires i <= |parts|
  {
    if i == 0 then 0 else Start(parts, i - 1) + |parts[i - 1]|
  }

  /** Offsets depend only on the lengths of the tiles before them. */
  lemma {:induction false} StartSame(p: seq<seq<byte>>, q: seq<seq<byte>>, i: nat)
    requires i <= |p| && i <= |q|
    requires forall k | 0 <= k < i :: |p[k]| == |q[k]|
    ensures Start(p, i) == Start(q, i)
  {
    if i > 0 {
      StartSame(p, q, i - 1);
    }
  }

  lemma {:induction false} StartOrder(parts: seq<seq<byte>>, i: nat, j: nat)
    requires i < j <= |parts|
    ensures Start(parts, i) + |parts[i]| <= Start(parts, j)
  {
    if i + 1 < j {
      StartOrder(parts, i, j - 1);
    }
  }

  /** Tile i is exactly the bytes from its start to the next tile's start. */
  lemma {:induction false} TileAt(parts: seq<seq<byte>>, i: nat)
    requires i < |parts|
    ensures Start(parts, i) + |parts[i]| <= |Flatten(parts)|
    ensures Flatten(parts)[Start(parts, i)..Start(parts, i) + |parts[i]|] == parts[i]
  {
    var n := |parts| - 1;
    StartSame(parts, parts[..n], i);
    if i < n {
      TileAt(parts[..n], i);
    }
  }

  lemma FlattenAppend(parts: seq<seq<byte>>, p: seq<byte>)
    ensures Flatten(parts + [p]) == Flatten(parts) + p
    ensures forall i | 0 <= i <= |parts| :: Start(parts + [p], i) == Start(parts, i)
  {
    assert (parts + [p])[..|parts|] == parts;
    forall i | 0 <= i <= |parts| ensures Start(parts + [p], i) == Start(parts, i) {
      StartSame(parts + [p], parts, i);
    }
  }

  lemma {:induction false} OverwriteInside(a: seq<byte>, b: seq<byte>, off: nat, s: seq<byte>)
    requires off + |s| <= |a|
    ensures WriteAt(a + b, off, s) == WriteAt(a, off, s) + b
  {
    if off == |a| {
      assert s == [] && WriteAt(a, off, s) == a;
      assert WriteAt(a + b, off, s) == a + b;
    } else {
      assert (a + b)[..off] == a[..off];
      assert (a + b)[off + |s|..] == a[off + |s|..] + b;
    }
  }

  /** Replacing a tile by one of the same length is one in-place write that moves nothing else. */
  lemma {:induction false} FlattenUpdate(parts: seq<seq<byte>>, i: nat, p: seq<byte>)
    requires i < |parts| && |p| == |parts[i]|
    ensures Flatten(parts[i := p]) == WriteAt(Flatten(parts), Start(parts, i), p)
    ensures forall k | 0 <= k <= |parts| :: Start(parts[i := p], k) == Start(parts, k)
  {
    forall k | 0 <= k <= |parts| ensures Start(parts[i := p], k) == Start(parts, k) {
      StartSame(parts[i := p], parts, k);
    }
    var n := |parts| - 1;
    StartSame(parts, parts[..n], i);
    var front := Flatten(parts[..n]);
    assert Flatten(parts) == front + parts[n];
    if i == n {
      assert parts[i := p][..n] == parts[..n];
      OverwriteEnd(front, parts[n], p);
    } else {
      hide WriteAt;
      assert parts[i := p][..n] == parts[..n][i := p];
      FlattenUpdate(parts[..n], i, p);
      TileAt(parts[..n], i);
      OverwriteInside(front, parts[n], Start(parts, i), p);
    }
  }

  lemma OverwriteEnd(a: seq<byte>, b: seq<byte>, s: seq<byte>)
    requires |s| == |b|
    ensures WriteAt(a + b, |a|, s) == a + s
  {
    assert |s| > 0 ==> (a + b)[..|a|] == a;
    if |s| == 0 {
      assert b == [] && s == [] && a + b == a;
      assert seq(0, _ => NUL) == [];
    }
  }

  /** Overwriting only the first bytes of a tile is the same as rewriting the whole tile. */
  lemma FlattenUpdateFront(parts: seq<seq<byte>>, i: nat, front: seq<byte>)
    requires i < |parts| && |front| <= |parts[i]|
    ensures Flatten(parts[i := front + parts[i][|front|..]]) == WriteAt(Flatten(parts), Start(parts, i), front)
    ensures forall k | 0 <= k <= |parts| :: Start(parts[i := front + parts[i][|front|..]], k) == Start(parts, k)
  {
    hide Flatten, Start, WriteAt;
    TileAt(parts, i);
    FrontOnly(Flatten(parts), Start(parts, i), parts[i], front);
    FlattenUpdate(parts, i, front + parts[i][|front|..]);
  }

  lemma FrontOnly(file: seq<byte>, off: nat, tile: seq<byte>, front: seq<byte>)
    requires off + |tile| <= |file| && file[off..off + |tile|] == tile && |front| <= |tile|
    ensures WriteAt(file, off, front + tile[|front|..]) == WriteAt(file, off, front)
  {
    var a, b := file[..off], file[off + |tile|..];
    assert file == a + tile + b;
    assert WriteAt(file, off, front + tile[|front|..]) == a + (front + tile[|front|..]) + b;
    assert WriteAt(file, off, front) == a + front + file[off + |front|..];
    assert file[off + |front|..] == tile[|front|..] + b;
  }
}
