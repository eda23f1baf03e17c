/** The calls that the database library makes on the record locks of its two files. */
module LockActs {
  import opened Records

  datatype File = IdxFd | DatFd

  datatype Mode = Shared | Exclusive

  /** A blocking request (readw_lock, writew_lock) or a release (un_lock) of len bytes from lo;
      len 0 means through every byte past lo. */
  datatype Act = Acquire(file: File, lo: nat, len: nat, mode: Mode) | Release(file: File, lo: nat, len: nat)

  const APPEND_OFF: nat := (NHASH + 1) * PTR_SZ + 1

  function OpenActs(): seq<Act> {
    [Acquire(IdxFd, 0, 0, Exclusive), Release(IdxFd, 0, 0)]
  }

  function DatAppendActs(): seq<Act> {
    [Acquire(DatFd, 0, 0, Exclusive), Release(DatFd, 0, 0)]
  }

  function IdxAppendActs(): seq<Act> {
    [Acquire(IdxFd, APPEND_OFF, 0, Exclusive), Release(IdxFd, APPEND_OFF, 0)]
  }

  function FreeActs(): seq<Act> {
    [Acquire(IdxFd, 0, 1, Exclusive), Release(IdxFd, 0, 1)]
  }

  function ScanLock(): seq<Act> {
    [Acquire(IdxFd, 0, 1, Shared)]
  }

  function ScanActs(): seq<Act> {
    ScanLock() + FreeUnlock()
  }

  function ChainLock(chain: nat, mode: Mode): seq<Act> {
    [Acquire(IdxFd, chain, 1, mode)]
  }

  function ChainUnlock(chain: nat): seq<Act> {
    [Release(IdxFd, chain, 1)]
  }

  function FreeLock(): seq<Act> {
    [Acquire(IdxFd, 0, 1, Exclusive)]
  }

  /** The un_lock of the free list in _db_findfree, which no lock call precedes. */
  function FreeUnlock(): seq<Act> {
    [Release(IdxFd, 0, 1)]
  }

  /** A chain lock held around some inner calls. */
  function Chained(chain: nat, mode: Mode, inner: seq<Act>): seq<Act> {
    ChainLock(chain, mode) + inner + ChainUnlock(chain)
  }

  /** No append: the free list was searched and released, nothing else. */
  function ReuseActs(): seq<Act> {
    FreeUnlock()
  }

  function AppendActs(): seq<Act> {
    FreeUnlock() + (DatAppendActs() + IdxAppendActs())
  }

  function MoveActs(): seq<Act> {
    FreeActs() + (DatAppendActs() + IdxAppendActs())
  }

  /** The log grew by exactly these calls. */
  ghost predicate Logs(before: seq<Act>, after: seq<Act>, more: seq<Act>) {
    after == before + more
  }

  lemma LogsThen(l0: seq<Act>, l1: seq<Act>, l2: seq<Act>, a: seq<Act>, b: seq<Act>)
    requires Logs(l0, l1, a) && Logs(l1, l2, b)
    ensures Logs(l0, l2, a + b)
  {
    assert l0 + a + b == l0 + (a + b);
  }

  lemma LogsNone(l: seq<Act>)
    ensures Logs(l, l, [])
  {
  }

  lemma ChainedLogs(l0: seq<Act>, l1: seq<Act>, l2: seq<Act>, l3: seq<Act>, chain: nat, mode: Mode, inner: seq<Act>)
    requires Logs(l0, l1, ChainLock(chain, mode)) && Logs(l1, l2, inner) && Logs(l2, l3, ChainUnlock(chain))
    ensures Logs(l0, l3, Chained(chain, mode, inner))
  {
    LogsThen(l0, l1, l2, ChainLock(chain, mode), inner);
    LogsThen(l0, l2, l3, ChainLock(chain, mode) + inner, ChainUnlock(chain));
  }
}
