/** The linked lists of the index file as a heap of tile numbers.
    Tile 0 heads the free list, tile 1 + h heads hash chain h, tile HEADS is the newline after the
    header and tiles from FIRST on are index records. next[j] is the tile that tile j's pointer
    names, with 0 for the end of a list; owner[j] is the head of the list that record j lies on,
    or ORPHAN. */
module Links {
  const HEADS: nat := 138
  const FIRST: nat := 139
  const FREE: nat := 0
  const ORPHAN: nat := 138

  /** The tile whose pointer leads to element k of list l. */
  function Before(l: nat, list: seq<nat>, k: nat): nat
    requires k <= |list|
  {
    if k == 0 then l else list[k - 1]
  }

  function Without(list: seq<nat>, k: nat): seq<nat>
    requires k < |list|
  {
    list[..k] + list[k + 1..]
  }

  ghost predicate Distinct(list: seq<nat>) {
    forall i, k | 0 <= i < k < |list| :: list[i] != list[k]
  }

  /** Following the pointers from head l visits exactly the records of this list, in order, then ends. */
  ghost predicate Linked(next: seq<nat>, l: nat, list: seq<nat>) {
    && l < HEADS < |next|
    && (forall k | 0 <= k < |list| :: FIRST <= list[k] < |next|)
    && (forall k {:trigger Before(l, list, k)} | 0 <= k <= |list| ::
          next[Before(l, list, k)] == if k < |list| then list[k] else 0)
  }

  ghost predicate Owned(owner: seq<nat>, l: nat, list: seq<nat>) {
    && Distinct(list)
    && forall k | 0 <= k < |list| :: list[k] < |owner| && owner[list[k]] == l
  }

  /** Every record lies on exactly one list, exactly once, or is a declared orphan. */
  ghost predicate Partitioned(next: seq<nat>, owner: seq<nat>, lists: seq<seq<nat>>) {
    && |owner| == |next| >= FIRST
    && |lists| == HEADS
    && (forall l | 0 <= l < HEADS :: Linked(next, l, lists[l]) && Owned(owner, l, lists[l]))
    && (forall j | FIRST <= j < |next| :: owner[j] <= ORPHAN)
    && (forall j | FIRST <= j < |next| && owner[j] != ORPHAN :: j in lists[owner[j]])
  }

  /** Redirecting the pointer that led to element k takes exactly that record off its list. */
  lemma Unlink(next: seq<nat>, owner: seq<nat>, lists: seq<seq<nat>>, l: nat, k: nat)
    requires Partitioned(next, owner, lists)
    requires l < HEADS && k < |lists[l]|
    ensures var list := lists[l];
            Partitioned(next[Before(l, list, k) := next[list[k]]],
                        owner[list[k] := ORPHAN],
                        lists[l := Without(list, k)])
  {
    var list := lists[l];
    var j, pred := list[k], Before(l, list, k);
    assert Linked(next, l, list) && Owned(owner, l, list);
    var next', owner', lists' := next[pred := next[j]], owner[j := ORPHAN], lists[l := Without(list, k)];
    forall m | 0 <= m < HEADS ensures Linked(next', m, lists'[m]) && Owned(owner', m, lists'[m]) {
      if m == l {
        UnlinkSame(next, owner, l, list, k);
      } else {
        OtherListKept(next, owner, l, list, k, m, lists[m]);
      }
    }
    forall r | FIRST <= r < |next'| && owner'[r] != ORPHAN ensures r in lists'[owner'[r]] {
      assert r in lists[owner[r]];
      if owner[r] == l {
        var i :| 0 <= i < |list| && list[i] == r;
        assert Without(list, k)[if i < k then i else i - 1] == r;
      }
    }
  }

  lemma UnlinkSame(next: seq<nat>, owner: seq<nat>, l: nat, list: seq<nat>, k: nat)
    requires Linked(next, l, list) && Owned(owner, l, list) && |owner| == |next|
    requires k < |list|
    ensures Linked(next[Before(l, list, k) := next[list[k]]], l, Without(list, k))
    ensures Owned(owner[list[k] := ORPHAN], l, Without(list, k))
  {
    var rest, pred, j := Without(list, k), Before(l, list, k), list[k];
    var next' := next[pred := next[j]];
    assert Before(l, list, k + 1) == j;
    UnlinkOwned(owner, l, list, k);
    forall i | 0 <= i <= |rest|
      ensures next'[Before(l, rest, i)] == if i < |rest| then rest[i] else 0
    {
      hide Distinct, Owned;
      if i != k {
        var o := if i < k then i else i + 1;
        assert Before(l, rest, i) == Before(l, list, o);
        BeforeDistinct(l, list, o, k);
        assert next[Before(l, list, o)] == if o < |list| then list[o] else 0;
      }
    }
  }

  lemma UnlinkOwned(owner: seq<nat>, l: nat, list: seq<nat>, k: nat)
    requires Owned(owner, l, list) && k < |list|
    ensures Owned(owner[list[k] := ORPHAN], l, Without(list, k))
  {
    var rest := Without(list, k);
    assert forall i | 0 <= i < |rest| :: rest[i] == list[if i < k then i else i + 1];
  }

  lemma BeforeDistinct(l: nat, list: seq<nat>, i: nat, k: nat)
    requires l < HEADS && Distinct(list) && forall m | 0 <= m < |list| :: FIRST <= list[m]
    requires i != k && i <= |list| && k <= |list|
    ensures Before(l, list, i) != Before(l, list, k)
  {
  }

  lemma OtherListKept(next: seq<nat>, owner: seq<nat>, l: nat, list: seq<nat>, k: nat, m: nat, other: seq<nat>)
    requires Linked(next, l, list) && Owned(owner, l, list) && |owner| == |next|
    requires Linked(next, m, other) && Owned(owner, m, other)
    requires m != l && k < |list|
    ensures Linked(next[Before(l, list, k) := next[list[k]]], m, other)
    ensures Owned(owner[list[k] := ORPHAN], m, other)
  {
    var pred := Before(l, list, k);
    forall i | 0 <= i <= |other| ensures Before(m, other, i) != pred {
      if k > 0 && i > 0 {
        assert owner[list[k - 1]] == l && owner[other[i - 1]] == m;
      }
    }
    assert forall i | 0 <= i < |other| :: other[i] != list[k];
  }

  /** An orphan that already points at the first element of list l becomes its new first element. */
  lemma Push(next: seq<nat>, owner: seq<nat>, lists: seq<seq<nat>>, l: nat, j: nat)
    requires Partitioned(next, owner, lists)
    requires l < HEADS && FIRST <= j < |next| && owner[j] == ORPHAN && next[j] == next[l]
    ensures Partitioned(next[l := j], owner[j := l], lists[l := [j] + lists[l]])
  {
    var next', owner', lists' := next[l := j], owner[j := l], lists[l := [j] + lists[l]];
    forall m | 0 <= m < HEADS ensures Linked(next', m, lists'[m]) && Owned(owner', m, lists'[m]) {
      assert Linked(next, m, lists[m]) && Owned(owner, m, lists[m]);
      if m == l {
        PushSame(next, owner, l, lists[l], j);
      } else {
        assert forall i | 0 <= i <= |lists[m]| :: Before(m, lists[m], i) != l;
      }
    }
    forall r | FIRST <= r < |next'| && owner'[r] != ORPHAN ensures r in lists'[owner'[r]] {
      if r == j {
        assert lists'[l][0] == j;
      } else {
        assert r in lists[owner[r]];
      }
    }
  }

  lemma PushSame(next: seq<nat>, owner: seq<nat>, l: nat, list: seq<nat>, j: nat)
    requires Linked(next, l, list) && Owned(owner, l, list) && |owner| == |next|
    requires FIRST <= j < |next| && owner[j] == ORPHAN && next[j] == next[l]
    ensures Linked(next[l := j], l, [j] + list) && Owned(owner[j := l], l, [j] + list)
  {
    var long := [j] + list;
    forall i | 0 <= i <= |long| ensures next[l := j][Before(l, long, i)] == if i < |long| then long[i] else 0 {
      if i == 1 {
        assert next[j] == next[Before(l, list, 0)];
      } else if i > 1 {
        assert Before(l, long, i) == Before(l, list, i - 1);
      }
    }
  }

  /** What an orphan points at matters to no list. */
  lemma OrphanPoints(next: seq<nat>, owner: seq<nat>, lists: seq<seq<nat>>, j: nat, v: nat)
    requires Partitioned(next, owner, lists)
    requires FIRST <= j < |next| && owner[j] == ORPHAN
    ensures Partitioned(next[j := v], owner, lists)
  {
    forall m | 0 <= m < HEADS ensures Linked(next[j := v], m, lists[m]) && Owned(owner, m, lists[m]) {
      assert Linked(next, m, lists[m]) && Owned(owner, m, lists[m]);
      assert forall i | 0 <= i <= |lists[m]| :: Before(m, lists[m], i) != j;
    }
  }

  /** _db_dodelete's three pointer writes, in their order, move element k of chain l to the front
      of the free list. */
  lemma MoveToFree(next: seq<nat>, owner: seq<nat>, lists: seq<seq<nat>>, l: nat, k: nat)
    requires Partitioned(next, owner, lists)
    requires 1 <= l < HEADS && k < |lists[l]|
    ensures FIRST <= lists[l][k] < |next| && 0 < Before(l, lists[l], k) < |next|
            && Before(l, lists[l], k) != lists[l][k]
    ensures Before(l, lists[l], k) != HEADS
    ensures var list := lists[l];
            var j := list[k];
            Partitioned(next[j := next[FREE]][FREE := j][Before(l, list, k) := next[j]],
                        owner[j := FREE],
                        lists[l := Without(list, k)][FREE := [j] + lists[FREE]])
  {
    var list := lists[l];
    var j, pred := list[k], Before(l, list, k);
    assert Linked(next, l, list) && Owned(owner, l, list);
    hide Partitioned, Linked, Owned;
    var next1, owner1, lists1 := next[pred := next[j]], owner[j := ORPHAN], lists[l := Without(list, k)];
    Unlink(next, owner, lists, l, k);
    OrphanPoints(next1, owner1, lists1, j, next1[FREE]);
    var next2 := next1[j := next1[FREE]];
    Push(next2, owner1, lists1, FREE, j);
    assert next2[FREE := j] == next[j := next[FREE]][FREE := j][pred := next[j]];
    assert owner1[j := FREE] == owner[j := FREE];
  }

  lemma OrphanAdded(next: seq<nat>, owner: seq<nat>, lists: seq<seq<nat>>, v: nat)
    requires Partitioned(next, owner, lists)
    ensures Partitioned(next + [v], owner + [ORPHAN], lists)
  {
    forall m | 0 <= m < HEADS ensures Linked(next + [v], m, lists[m]) && Owned(owner + [ORPHAN], m, lists[m]) {
      assert Linked(next, m, lists[m]) && Owned(owner, m, lists[m]);
    }
  }

  /** A list cannot be longer than the file has tiles. */
  lemma {:induction false} DistinctBound(list: seq<nat>, n: nat)
    requires Distinct(list) && forall k | 0 <= k < |list| :: list[k] < n
    ensures |list| <= n
  {
    if |list| == 0 {
    } else {
      assert list[0] < n;
      if n - 1 in list {
        var k :| 0 <= k < |list| && list[k] == n - 1;
        DistinctBound(Without(list, k), n - 1);
      } else {
        DistinctBound(list, n - 1);
      }
    }
  }
}
