/** The device locks of the dialer (chapter18/lock.c): locked by line, unlocked by process. */
module LockTable {
  import opened Systems

  const NALLOC: nat := 10

  datatype LockEntry = LockEntry(line: CStr, pid: int)

  /** Who holds a line: the pid in its entry, or 0. */
  function Owner(entries: seq<LockEntry>, line: CStr): int {
    if |entries| == 0 then 0
    else if entries[0].line == line then entries[0].pid
    else Owner(entries[1..], line)
  }

  /** One entry a line. */
  ghost predicate Sound(entries: seq<LockEntry>) {
    forall i, k | 0 <= i < k < |entries| :: entries[i].line != entries[k].line
  }

  lemma {:induction false} OwnerIs(entries: seq<LockEntry>, k: nat)
    requires k < |entries| && forall i | 0 <= i < k :: entries[i].line != entries[k].line
    ensures Owner(entries, entries[k].line) == entries[k].pid
  {
    if k > 0 {
      OwnerIs(entries[1..], k - 1);
    }
  }

  lemma {:induction false} OwnerFound(entries: seq<LockEntry>, line: CStr) returns (k: nat)
    ensures k <= |entries|
    ensures k < |entries| ==> entries[k].line == line && Owner(entries, line) == entries[k].pid
    ensures k == |entries| ==> Owner(entries, line) == 0 && forall i | 0 <= i < |entries| :: entries[i].line != line
  {
    if |entries| == 0 || entries[0].line == line {
      k := 0;
    } else {
      var m := OwnerFound(entries[1..], line);
      k := m + 1;
      assert forall i | 0 <= i < |entries| :: i > 0 ==> entries[i] == entries[1..][i - 1];
    }
  }

  /** After one entry's pid is replaced, that line has the new owner and no other line changes. */
  lemma OwnerUpdated(entries: seq<LockEntry>, k: nat, pid: int, line: CStr)
    requires Sound(entries) && k < |entries|
    ensures Owner(entries[k := entries[k].(pid := pid)], line) == if line == entries[k].line then pid
            else Owner(entries, line)
  {
    var us := entries[k := entries[k].(pid := pid)];
    assert forall i | 0 <= i < |us| :: us[i].line == entries[i].line;
    var a := OwnerFound(entries, line);
    var b := OwnerFound(us, line);
  }

  lemma {:induction false} OwnerAdded(entries: seq<LockEntry>, added: CStr, line: CStr)
    ensures Owner(entries + [LockEntry(added, 0)], line) == Owner(entries, line)
  {
    if |entries| == 0 {
      assert entries + [LockEntry(added, 0)] == [LockEntry(added, 0)];
      assert [LockEntry(added, 0)][1..] == [];
    } else {
      assert (entries + [LockEntry(added, 0)])[1..] == entries[1..] + [LockEntry(added, 0)];
      OwnerAdded(entries[1..], added, line);
    }
  }

  lemma SoundUpdated(entries: seq<LockEntry>, k: nat, pid: int)
    requires Sound(entries) && k < |entries|
    ensures Sound(entries[k := entries[k].(pid := pid)])
  {
    var us := entries[k := entries[k].(pid := pid)];
    assert forall i | 0 <= i < |us| :: us[i].line == entries[i].line;
  }

  /** From one table to the next, the line of this process is given up if it has one, and only that;
      of several, one is. */
  ghost predicate GivenUp(before: seq<LockEntry>, after: seq<LockEntry>, changes: seq<Handover>,
                          changes': seq<Handover>, pid: int) {
    || ((pid == 0 || forall l :: Owner(before, l) != pid) && changes' == changes && forall l ::
          Owner(after, l) == Owner(before, l))
    || exists line :: Owner(before, line) == pid && changes' == changes + [Handover(line, pid, 0)]
                      && forall l :: Owner(after, l) == if l == line then 0 else Owner(before, l)
  }

  /** A line changing hands; 0 is nobody. */
  datatype Handover = Handover(line: CStr, before: int, after: int)

  /** Who holds a line after these changes. */
  ghost function LastOwner(changes: seq<Handover>, line: CStr): int {
    if |changes| == 0 then 0
    else if changes[|changes| - 1].line == line then changes[|changes| - 1].after
    else LastOwner(changes[..|changes| - 1], line)
  }

  /** The changes are a true record: each begins with the holder that those before it leave, and
      they come to the table as it is. */
  ghost predicate Recorded(changes: seq<Handover>, entries: seq<LockEntry>) {
    && (forall k | 0 <= k < |changes| :: changes[k].before == LastOwner(changes[..k], changes[k].line))
    && (forall l :: LastOwner(changes, l) == Owner(entries, l))
  }

  /** A held line is only ever given up, never taken. */
  ghost predicate NeverStolen(changes: seq<Handover>) {
    forall k | 0 <= k < |changes| :: changes[k].before == 0 || changes[k].after == 0
  }

  lemma RecordedSame(changes: seq<Handover>, a: seq<LockEntry>, b: seq<LockEntry>)
    requires Recorded(changes, a) && forall l :: Owner(b, l) == Owner(a, l)
    ensures Recorded(changes, b)
  {
  }

  lemma RecordedNext(changes: seq<Handover>, a: seq<LockEntry>, b: seq<LockEntry>, line: CStr, pid: int)
    requires Recorded(changes, a) && forall l :: Owner(b, l) == if l == line then pid else Owner(a, l)
    ensures Recorded(changes + [Handover(line, Owner(a, line), pid)], b)
  {
    var more := changes + [Handover(line, Owner(a, line), pid)];
    assert more[..|changes|] == changes;
    forall k | 0 <= k < |more| ensures more[k].before == LastOwner(more[..k], more[k].line) {
      if k < |changes| {
        assert more[..k] == changes[..k];
      }
    }
  }

  lemma NeverStolenNext(changes: seq<Handover>, h: Handover)
    requires NeverStolen(changes) && (h.before == 0 || h.after == 0)
    ensures NeverStolen(changes + [h])
  {
  }

  /** Giving a line up is always fair. */
  lemma ReleaseFair(changes: seq<Handover>)
    requires NeverStolen(changes)
    ensures forall line, pid :: NeverStolen(changes + [Handover(line, pid, 0)])
  {
  }

  class Locks {
    ghost var changes: seq<Handover>
    var lock: seq<LockEntry>   // the allocated array
    var nlocks: nat            // how many entries are in use
    const fill: LockEntry      // what newly allocated memory happens to hold

    ghost predicate Valid()
      reads this
    {
      nlocks <= |lock| && Sound(lock[..nlocks]) && Recorded(changes, lock[..nlocks])
    }

    ghost function Used(): seq<LockEntry>
      reads this
      requires nlocks <= |lock|
    {
      lock[..nlocks]
    }

    constructor (fill: LockEntry)
      ensures Valid() && Used() == [] && changes == []
    {
      this.fill := fill;
      lock, nlocks, changes := [], 0, [];
    }

    /** The entry of a line, made at the end of the table if there is none. */
    method FindLine(line: CStr) returns (i: nat)
      requires Valid()
      modifies this
      ensures Valid() && i < nlocks && lock[i].line == line && changes == old(changes)
      ensures forall l :: Owner(Used(), l) == Owner(old(Used()), l)
    {
      i := 0;
      while i < nlocks
        invariant i <= nlocks && unchanged(this)
        invariant forall k | 0 <= k < i :: lock[k].line != line
      {
        if lock[i].line == line {
          return;
        }
        i := i + 1;
      }
      ghost var before := lock[..nlocks];
      if nlocks >= |lock| {
        lock := lock + seq(NALLOC, _ => fill);
      }
      lock := lock[nlocks := LockEntry(line, 0)];
      nlocks := nlocks + 1;
      i := nlocks - 1;
      assert lock[..nlocks] == before + [LockEntry(line, 0)];
      forall l ensures Owner(lock[..nlocks], l) == Owner(before, l) {
        OwnerAdded(before, line, l);
      }
      RecordedSame(changes, before, lock[..nlocks]);
    }

    /** Only this line changes hands. */
    method LockSet(line: CStr, pid: int)
      requires Valid()
      modifies this
      ensures Valid() && changes == old(changes) + [Handover(line, Owner(old(Used()), line), pid)]
      ensures forall l :: Owner(Used(), l) == if l == line then pid else Owner(old(Used()), l)
    {
      hide Recorded, Owner;
      var i := FindLine(line);
      ghost var mid := lock[..nlocks];
      SoundUpdated(mid, i, pid);
      lock := lock[i := lock[i].(pid := pid)];
      ghost var now := lock[..nlocks];
      assert now == mid[i := mid[i].(pid := pid)];
      forall l ensures Owner(now, l) == if l == line then pid else Owner(mid, l) {
        OwnerUpdated(mid, i, pid, l);
      }
      RecordedNext(changes, mid, now, line, pid);
      changes := changes + [Handover(line, Owner(mid, line), pid)];
    }

    /** The first entry with this pid is free afterwards; nothing else changes. */
    method LockRel(pid: int)
      requires Valid()
      modifies this
      ensures Valid() && GivenUp(old(Used()), Used(), old(changes), changes, pid)
    {
      hide Recorded;
      var i := 0;
      ghost var before := lock[..nlocks];
      while i < nlocks
        invariant i <= nlocks && unchanged(this)
        invariant forall k | 0 <= k < i :: lock[k].pid != pid
      {
        if lock[i].pid == pid {
          SoundUpdated(before, i, 0);
          FirstOwns(before, i);
          lock := lock[i := lock[i].(pid := 0)];
          ghost var now, line := lock[..nlocks], lock[i].line;
          assert now == before[i := before[i].(pid := 0)];
          forall l ensures Owner(now, l) == if l == line then 0 else Owner(before, l) {
            OwnerUpdated(before, i, 0, l);
          }
          RecordedNext(changes, before, now, line, 0);
          assert GivenUp(before, now, changes, changes + [Handover(line, pid, 0)], pid);
          changes := changes + [Handover(line, pid, 0)];
          return;
        }
        i := i + 1;
      }
      NothingGivenUp(before, changes, pid);
      assert lock[..nlocks] == before;
    }

    method IsLocked(line: CStr) returns (pid: int)
      requires Valid()
      modifies this
      ensures Valid() && pid == Owner(Used(), line) == Owner(old(Used()), line) && changes == old(changes)
      ensures forall l :: Owner(Used(), l) == Owner(old(Used()), l)
    {
      var i := FindLine(line);
      OwnerIs(lock[..nlocks], i);
      pid := lock[i].pid;
    }
  }

  lemma FirstOwns(entries: seq<LockEntry>, i: nat)
    requires Sound(entries) && i < |entries|
    ensures Owner(entries, entries[i].line) == entries[i].pid
  {
    OwnerIs(entries, i);
  }

  lemma NothingGivenUp(entries: seq<LockEntry>, changes: seq<Handover>, pid: int)
    requires forall k | 0 <= k < |entries| :: entries[k].pid != pid
    ensures GivenUp(entries, entries, changes, changes, pid)
  {
    if pid != 0 {
      forall l ensures Owner(entries, l) != pid {
        var k := OwnerFound(entries, l);
      }
    }
    assert forall l :: Owner(entries, l) == Owner(entries, l);
  }
}
