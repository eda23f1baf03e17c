# Verified models of the programs in AP_UNIX

Five programs are modelled, and what their code promises is proved.

**The key/data library** (`AP_UNIX/db.c`). A database is two flat files: an index file of decimal
text that holds the free-list pointer, 137 chain heads and variable-length records, and a data file
of newline-terminated records. `Database.DB` is the handle: its fields are those of the C structure
and the contents of the two files, and its methods are the library's functions, one `write` at a
time. Under it lie the text of the records (`Text`, `Records`), files as runs of adjacent tiles
(`Tiling`), linked lists inside a file (`Links`), what the bytes of two files mean (`Images`,
`Lookups`, `Scans`), what each write does to that meaning (`Steps`, `Effects`, `Creation`), and a
ghost history of both files after every single write, with the locks held at it (`History`). `Runs`
proves that any run from a fresh database behaves as a finite map. `LockActs` and `Locking` model
any number of processes that interleave the lock calls of the library, under the advisory record
locks of `fcntl()` in IEEE Std 1003.1, and prove that they cannot deadlock and that a process which
writes to a chain, or appends to a file, is alone with it. `DB` logs its lock calls, so the scripts that `Locking`
interleaves are the ones the operations are proved to make. `Separators` follows what a key that
holds a colon does to the files.

**The modem-dialer server** (`AP_UNIX/chapter18`). `Systems` reads the Systems file byte by byte,
`Lines` says what that makes of its text and which device a request dials in terms of the text,
`LockTable` is the growing table of device locks with a ghost record of every change of hands, and
`Search` is the search of `request()` and what it means in terms of the entries ahead. `Dialer` is
the whole server as a transition system on its tables, with the select set, device, and error
properties that every run has, whatever clients do. `Protocol` has those that depend on clients
keeping to one request a connection and hanging up only when their child has ended and its status
has been dealt with. `Misuse` has runs from the server's start in which they do not, or in which a
slot holds what it should not, and what goes wrong in them. `Server.Server` has the functions of
`client.c`, `request.c` and `loop.c` as methods on the real tables, and proves that they do exactly
what the transition system does. The outside world is a parameter: what a client sends, which child
ends and how, which descriptor `accept` and which pid `fork` returns.

**The printer-output parser** (`AP_UNIX/input.c`, `AP_UNIX/message.c`), **the descriptor-passing
receiver** (`AP_UNIX/proc_com_43pbds.c`) and **the tree walk** (`AP_UNIX/iterdir.c`) are in
`Printer`, `Descriptor` and `Walk`.

Every method is proved against a function of its inputs or of the old state, and the properties
below are proved of those functions and of whole runs.

## What the code does not do

Some things one would expect of these programs do not hold. Each is stated exactly.

- A key that contains `:` makes every later read of its record end in `err_dump`; keys without it
  always read back (`Records.RecordRoundTrip`). So a store of such a key returns 0, but from its last
  write on every lookup of a key with the same hash dies, and no other lookup changes
  (`Separators.SpoilsChain`, `Database.DB.Store`).
- `db_nextrec` takes a live record for a deleted one exactly when its key is all blanks
  (`Scans.RewoundScan`), and takes a record whose chain pointer is negative for the end of the file,
  which no record written by the library is (`Scans.ScanIsLive`).
- `db_store` ends the program in exactly the cases of `StoreDies`: data of an illegal length, or an
  append whose record is too long or too short or starts past 999999 (`Database.DB.Store`). When a
  replacement by data of another size dies, the old record is already gone; any other store that
  dies leaves the map as it was, though bytes that no record names may stay behind.
- `_db_findfree` releases a free-list lock that it never took (`AP_UNIX/db.c:611-613`). So two stores on
  different chains can search the free list and take a record off it at once (`Locking.StoresRace`);
  deadlock freedom does not depend on it.
- `recv_fd` works for every segmentation but one: it dies exactly when a read ends between the two
  last bytes (`Descriptor.Framing`). Errors below -255 arrive as another value
  (`Descriptor.ErrorsArrive`).
- The recogniser gives back the printed events if and only if no mailed text completes an opening or
  leaves percents pending at a message or at the end, no body completes a closing or ends inside one,
  and no EOF is printed (`Printer.Undoes`). A percent mailed just before a message loses it, and a
  message that ends in one right bracket never ends (`Printer.Losses`). No recogniser could undo all
  printing, since a message and mailed text can render alike (`Printer.MarkersAreAmbiguous`).
- After an unreadable directory that the callback does not stop at, and only then, the path buffer
  keeps a slash at its end (`Walk.Walker.DoPath`), and the callback sees it there.
- `request()` stops at a matching Systems entry for which there is no device at all, even if a later
  match has a free one (`Search.DialsIff`), and the client's position is then not -1 as the comment
  at `AP_UNIX/chapter18/request.c:57` says.
- A hang-up gives up exactly the line that the slot's pid holds, and so that of a child that still
  runs if and only if the pid is that of one that holds a line (`Protocol.HangUpFrees`). A client that
  hangs up while its child dials leaves the child dialing on a line that nobody holds
  (`Misuse.HangUpWhileDialing`). The child's later failure is noted in the free slot, and the next
  connection takes the slot over with it (`Protocol.EarlyHangUp`). When `child_done` next runs it
  searches on for what the first client wanted, and dials for the stranger exactly if it finds a
  line; otherwise it sends the stranger the error and ends its connection (`Misuse.StrangerServed`).
- A second request while the child runs makes the server quit when that child exits, exactly when
  the second request dials too (`Misuse.AsksTwice`).
- A freed slot keeps the pid of its last child, and `client_sigchld` does not ask whether a slot is
  free. If `fork()` returns the pid again, the exit of the new child is noted for its client if and
  only if no earlier slot remembers the pid (`Misuse.NotedElsewhere`); otherwise the client is never
  tried again and never told, though every client keeps the protocol (`Misuse.PidRemembered`). And the
  next connection in the free slot gives up the other client's line if it hangs up without a request
  (`Misuse.LineGivenAway`).
- `client_alloc` leaves the exit status and the pid of new slots unset. If new memory holds a
  failure status, and only then, `child_done` treats a client that has asked for nothing as one whose
  child has failed (`Misuse.StatusInNewMemory`).
- Of a child that is killed by a signal no client hears: an end is noted if and only if the child
  exited and some slot remembers it (`Protocol.NotedIff`). The killed child's line stays with its client
  until that hangs up, as it does after a success (`Protocol.StaysLocked`).

## Model

| member | source | states |
|---|---|---|
| Runs.RunAndScan | AP_UNIX/db.c:130-710 | any run of store, fetch and delete of any keys on a fresh database returns, call by call, what the same run on a finite map returns, up to a store that dies or up to and including the first store of a key that holds the separator; none dies in a run whose stores cannot fill the index file's pointer range; without such a key the files then hold exactly that map, live = stor1+stor2-delok, records = stor1+stor3, free = stor3+delok-stor2, and a scan yields the map, each key once, without all-blank keys, and counts as many nextrecs; after such a key exactly its chain is lost; and up to the end each statistic is a count over the operations, the map before each and the results: storerr the stores that returned 1 or -1, stor1 and stor2 together the ones of new keys, stor3 and stor4 those of present keys with data of another and of the same length, delok, delerr, fetchok and fetcherr the deletes and fetches of present and of absent keys |
| Runs.Apply | AP_UNIX/db.c:130-600 | the same for one call on any quiescent files, and the call dies if and only if StoreDies says so |
| Runs.StoreStep | AP_UNIX/db.c:526-595 | each way through db_store changes map, return code and statistics together so that the three conservation laws are kept |
| Runs.RoomToStore | AP_UNIX/db.c:451-457 | while the worst-case size of one more record fits the pointer range, no store of a key and data of legal lengths dies |
| Runs.ScanAll | AP_UNIX/db.c:656-710 | rewind and repeated db_nextrec end, return what a scan of the bytes returns, and change neither file |
| Runs.OperationsAreCalls | AP_UNIX/db.c:171-177 | the lock calls that each operation is proved to log are one call of the interleaving model, and only those of fetch and of the scan share their locks |
| Database.DB.Open | AP_UNIX/db.c:37-69 | creating builds files that hold the empty map, with no records, under a lock on the whole index file |
| Database.DB.Store | AP_UNIX/db.c:510-600 | for any key: returns 0, 1 or -1 as the flag bits and the key's presence demand, or dies exactly as StoreDies says; the new map, the free and total record counts, the statistics counter, the lock calls, and what lookups see after every single write: for a new key and for a same-size replace the old map until the last write and then the new map, or, for a new key that holds the separator, the loss of exactly its chain; every write made under this process's own lock of the chain, those that lengthen a file also under its own lock of that file's new bytes, and those of a delete of the free list |
| Database.DB.Delete | AP_UNIX/db.c:327-341 | returns 0 if and only if the key was present; exactly that key is gone, its record is on the free list, and four writes were made, all under this process's own locks of the chain and of the free list; otherwise no byte changes |
| Database.DB.Fetch | AP_UNIX/db.c:134-149 | returns exactly the data last stored under the key, or NULL, which is also what the bytes alone yield |
| Database.DB.Find | AP_UNIX/db.c:155-199 | terminates on any reachable files; succeeds if and only if the key is present; on success the handle holds the record's fields and ptroff is the offset of the pointer that leads to it |
| Database.DB.FindFree | AP_UNIX/db.c:606-648 | succeeds if and only if some deleted record has exactly this key length and data length, and then takes that record, and only it, off the free list in one write |
| Database.DB.DoDelete | AP_UNIX/db.c:348-402 | its four writes, in order, leave quiescent files of the same lengths that show the map without the key, with one more free record |
| Database.DB.InsertNew | AP_UNIX/db.c:535-561 | reuses a deleted record if any fits (stor2) and appends otherwise (stor1); lookups see the old map after every write but the last, and also when it dies half way |
| Database.DB.ReplaceOld | AP_UNIX/db.c:562-594 | same size: one write switches the map; other size: delete, then append, lookups seeing the map without the key in between; if the append dies the key stays deleted |
| Database.DB.AppendRecord | AP_UNIX/db.c:542-547 | three writes: data, record, chain head; succeeds if and only if the record's length is legal and its offset fits a pointer |
| Database.DB.ReuseRecord | AP_UNIX/db.c:555-558 | data, record and chain head over a record just taken off the free list give the map with the key, and one free record fewer |
| Database.DB.ReadIdx | AP_UNIX/db.c:244-304 | the handle's fields are those that the bytes at the offset encode, with the same end-of-file and error cases |
| Database.DB.WriteIdx | AP_UNIX/db.c:444-483 | exactly the encoded record is written, at the offset or the end, if and only if pointer and length are in range; an append to a file that has its header is made under a write lock on every new byte |
| Database.DB.WriteDat | AP_UNIX/db.c:409-436 | exactly the data and a newline are written; an append is one write, every new byte of which this process then holds a write lock on, and which it then gives up; a write in place takes none |
| Database.DB.WritePtr | AP_UNIX/db.c:490-502 | exactly the pointer field is written if and only if the pointer is in range |
| Database.DB.NextRec | AP_UNIX/db.c:676-710 | on any files the skip loop ends, and returns the next record with a non-blank key, leaving the file offset after it, or NULL at the end of the file or at a negative chain pointer |
| Records.RecordRoundTrip | AP_UNIX/db.c:243-304 | wherever in a file a record is written, reading it there yields the same pointer, length, key, offset and data length if the key has no separator, and dies if it has one |
| Records.PtrTextRoundTrip | AP_UNIX/db.c:490-502 | both pointer formats read back as the value, including zero printed as six blanks, and fill six columns if and only if the value is at most PTR_MAX |
| Records.SplitOfFields | AP_UNIX/db.c:287-296 | cutting a record line at its separators gives back key, offset and length if and only if the key has no separator |
| Records.SampleRecord | AP_UNIX/db.c:454-471 | one record byte by byte: pointer and length right-justified in six and four columns, then key, offset and length with the separators between them and a newline |
| Text.AtolOfDecimal | AP_UNIX/db.c:299-301 | atol undoes %d |
| Text.DecimalWidth | AP_UNIX/db.h:22-23 | a number prints in at most k columns if and only if it is below ten to the k |
| Tiling.FlattenUpdate | AP_UNIX/db.c:382-386 | an in-place write that reproduces a tile's length changes that tile only and moves none |
| Images.RecWritten | AP_UNIX/db.c:454-477 | rewriting a record under a key of the same length keeps both files tiled, with every other record and offset as it was |
| Images.DatWritten | AP_UNIX/db.c:590 | overwriting an extent with data of the same length keeps both files tiled and every offset |
| Images.PtrWritten | AP_UNIX/db.c:490-502 | a pointer write changes the successor of one tile and nothing else |
| Images.RecAppended | AP_UNIX/db.c:542-543 | appending data and then the record that names it keeps both files tiled to their ends |
| Images.HashIsWeighted | AP_UNIX/db.c:203-215 | wrapping to 64 bits at every character is wrapping once: the chain is that of the sum of the signed characters, each times its place |
| Links.Unlink | AP_UNIX/db.c:628-635 | writing an element's successor over the pointer that led to it removes exactly that element and keeps every record on exactly one acyclic list |
| Links.MoveToFree | AP_UNIX/db.c:375-397 | the three pointer writes of a delete, in their order, move exactly one record from its chain to the front of the free list |
| Links.Push | AP_UNIX/db.c:547 | writing the head makes a record that points at the old first element the new first element |
| Lookups.LookupIsMap | AP_UNIX/db.c:155-199 | on searchable files, looking up any key in the bytes alone yields exactly what the chains spell out; the walk never dies or cycles |
| Lookups.FitExists | AP_UNIX/db.c:615-623 | the first-fit walk of the free list finds a record if and only if any deleted record has the right sizes |
| Steps.InsertedIndexed | AP_UNIX/db.c:555-558 | with the record on its key's chain, the map is the old one with that key set, and no key occurs twice |
| Steps.DeletedIndexed | AP_UNIX/db.c:386-397 | with the record blank and free, the map is the old one without its key, and free records are all blanks |
| Effects.RecordAppended | AP_UNIX/db.c:542-543 | after the record is appended, and before the chain head is written, every lookup still sees the old map |
| Effects.RecordRewritten | AP_UNIX/db.c:555-556 | the same for a reused record: both in-place writes are invisible |
| Effects.Publish | AP_UNIX/db.c:547 | the chain-head write alone turns the old map into the new map, with all records accounted for |
| Effects.Overwritten | AP_UNIX/db.c:589-591 | the one write of a same-size replace sets exactly that key |
| Effects.DeleteEnds | AP_UNIX/db.c:388-397 | after the fourth write of a delete the files are quiescent again, without the key and one free record richer |
| Separators.SpoilsChain | AP_UNIX/db.c:287-296 | a record under a key with the separator, written over an unused one, is invisible; once the chain head names it, every lookup on that chain dies and every other finds what it did |
| Separators.OtherLookups | AP_UNIX/db.c:181-188 | lookups on the other chains depend on no byte of that record or of that chain head |
| Scans.ScanIsLive | AP_UNIX/db.c:656-668 | scanning from a record yields every live, non-blank record from there on, in file order, then NULL |
| Scans.RewoundScan | AP_UNIX/db.c:693-697 | after a rewind the scan is exactly the map, each key once and in file order, without the all-blank keys |
| Creation.FreshIsEmpty | AP_UNIX/db.c:47-61 | the header alone is a quiescent database with no records that shows the empty map |
| Locking.CallsAreDisciplined | AP_UNIX/db.c:365-399 | every call requests chain and whole-file locks only when it holds nothing, anything else only under at most a chain lock, and returns holding nothing |
| Locking.ReachableIsGood | AP_UNIX/db.c:464-482 | in every run of any number of processes conflicting locks are never held at once |
| Locking.WritersAlone | AP_UNIX/db.c:418-435 | in every reachable state, if two processes hold locks on one byte, then it is the free-list byte and both scan, or a chain head and both fetch from that chain: no byte of the data file, and none of the index file from the first record on, is ever held by two |
| Locking.ReadersShare | AP_UNIX/db.c:168-177 | in every reachable state a process that fetches or scans waits only for one that does neither |
| Locking.StoresRace | AP_UNIX/db.c:606-648 | for any two chains a state is reachable in which two stores stand between their chain lock and the release of the free list, and neither holds a byte of the free list |
| Locking.WaitsDescend | AP_UNIX/db.c:418-435 | a process that holds what another waits for stands at a lower rank |
| Locking.NoDeadlock | AP_UNIX/db.c:171-177 | in every reachable state no cycle of waiting exists, and no chain of waiting has more than three processes |
| Locking.Progress | AP_UNIX/db.c:596-598 | no reachable state is stuck: while any process is in a call some process can go on; whoever is between calls holds nothing |
| Systems.SystemsFile.ReadNext | AP_UNIX/chapter18/sysfile.c:9-42 | returns the next entry and position of the file, skipping empty lines and comments, or the end, or dies on a malformed line |
| Lines.ParseMeans | AP_UNIX/chapter18/sysfile.c:20-39 | for every line without NUL, cut into words and white space in whatever way: which lines are skipped, malformed or entries, exactly, and an entry's system, type and class are the first, third and fourth word |
| Lines.AheadOfLines | AP_UNIX/chapter18/sysfile.c:19-40 | a file of whole lines is read as exactly the entries of its lines, in order, up to a malformed line, which reading comes to if and only if there is one |
| Lines.FgetsStops | AP_UNIX/chapter18/sysfile.c:19-20 | a read stops after the first newline, or without one at 4095 bytes or at the end of the file |
| Lines.RequestDials | AP_UNIX/chapter18/request.c:10-46 | from the text of the file to the line dialed: request() dials a device if and only if some line names the system and speed, its device, the first of the type and class, is free, and every earlier such line has its first device taken |
| Lines.FindsFirst | AP_UNIX/chapter18/devfile.c:53-67 | the search of the Devices file gives a device's line if and only if the device has the entry's type and class and no earlier one has both, and none if and only if no device has |
| LockTable.Locks.FindLine | AP_UNIX/chapter18/lock.c:18-48 | finds or makes the one entry of a line without changing who holds anything, growing a full table |
| LockTable.Locks.LockSet | AP_UNIX/chapter18/lock.c:50-58 | exactly this line changes hands, to any pid; one entry a line is kept and the change is recorded |
| LockTable.Locks.LockRel | AP_UNIX/chapter18/lock.c:60-75 | a line of this process, if it has one, becomes free and nothing else changes |
| LockTable.Locks.IsLocked | AP_UNIX/chapter18/lock.c:77-82 | returns the holder of a line, or 0 |
| Search.DialsIff | AP_UNIX/chapter18/request.c:11-49 | a line is dialed if and only if some entry ahead matches, its device is there and free, and every earlier match has a device that is taken; the search fails for want of a device, runs out, or comes to a malformed line exactly in the other three cases; and which line, position and count of matches result |
| Search.ComplaintMeans | AP_UNIX/chapter18/request.c:28-57 | a failed search, the first or a later one, says not found if and only if no entry ever matched, unable if and only if matches were tried before and none is ahead, no device if and only if a match without one ended it, and otherwise, and only then, which device was found taken last, and by whom |
| Search.DialUsesUp | AP_UNIX/chapter18/request.c:10-57 | a search that ends in a child leaves exactly as many fewer matching entries ahead as it counted, at least one, on the way to the same end of the file |
| Search.DialsFreeLine | AP_UNIX/chapter18/request.c:27-46 | the line dialed was held by nobody |
| Dialer.TakesFreeLine | AP_UNIX/chapter18/request.c:27-46 | whatever request() does, every line that was held stays with its holder |
| Dialer.ApplySafe | AP_UNIX/chapter18/loop.c:32-123 | one event of any kind, from polite clients or not, keeps select set, live descriptors, maxima and table in agreement and every pid to one line at most |
| Dialer.RunSafe | AP_UNIX/chapter18/loop.c:27-59 | the same for every run: the select set is the listening descriptor and those of the live clients, which are distinct and within maxfd and maxi |
| Dialer.ClosedTable | AP_UNIX/chapter18/loop.c:183-190 | removing a client keeps select set and table in agreement |
| Dialer.JoinedTable | AP_UNIX/chapter18/client.c:23-43 | so does adding one, in a full table or not |
| Dialer.RunAccurate | AP_UNIX/chapter18/loop.c:108-115 | in every run whatever, each connection is sent at most one error, and is sent one exactly when the server ends it, in the order in which they end |
| Protocol.ApplyGood | AP_UNIX/chapter18/loop.c:132-179 | one event of a polite run keeps the accounts of locks, children and statuses and the bounds on children; after child_done no status waits; the server quits only over a malformed line or garbage that a live client sent |
| Protocol.RunGood | AP_UNIX/chapter18/loop.c:32-123 | every polite run keeps all this, and when the server quits, then at a move at which the Systems file, read from its start, comes to a malformed line, or a live client is read that sent garbage |
| Protocol.AttemptsEnd | AP_UNIX/chapter18/loop.c:153-170 | in every polite run, with anything else going on in between: a connection has at most as many children as entries for its request; while all have failed, either one more runs and fewer have ended than there are entries, and no error was sent, or the connection is over and was sent exactly one |
| Protocol.IdleServerHoldsNothing | AP_UNIX/chapter18/loop.c:74-81 | in every polite run, with no live client left, no device is locked and no child runs |
| Protocol.NotedKept | AP_UNIX/chapter18/client.c:64-76 | in a polite run the end of a running child is noted for the client that it dialed for, and the server does not quit |
| Protocol.TriedKept | AP_UNIX/chapter18/request.c:36-47 | in a polite run one more child, or the end of the client, keeps the accounts and the bound |
| Protocol.HangUpFrees | AP_UNIX/chapter18/loop.c:74-82 | in any state a hang-up gives up exactly the line held by the slot's pid; a running child's if and only if that pid is a running child's and holds one |
| Protocol.SecondRequest | AP_UNIX/chapter18/client.c:64-76 | in any state a second request makes the server quit at the exit of the child that the slot remembered if and only if it dials |
| Protocol.EarlyHangUp | AP_UNIX/chapter18/client.c:23-43 | in any state, after a hang-up during dialing, the child's failure is noted in the free slot, and the next connection inherits it |
| Protocol.DialsForStranger | AP_UNIX/chapter18/loop.c:140-171 | in any state child_done forks for a connection without a request if and only if its slot holds a failure status and the search for what it last held succeeds |
| Protocol.NotedIff | AP_UNIX/chapter18/sigchld.c:15-20 | an end is noted, at the first slot that remembers the pid, if and only if the child exited and some slot does; the server quits if and only if it exited and none does; of a killed child no slot hears and no lock changes |
| Protocol.StaysLocked | AP_UNIX/chapter18/loop.c:147-156 | in a polite run a line whose child has ended without a failure to deal with stays with its client through every event but that client's hang-up |
| Misuse.HangUpWhileDialing | AP_UNIX/chapter18/loop.c:74-82 | from the server's start: a connection, a request that dials and a hang-up lead to a running child and no line held |
| Misuse.AsksTwice | AP_UNIX/chapter18/client.c:64-76 | from the server's start: after two requests on a connection, the first child running, its exit makes the server quit if and only if the second request dialed |
| Misuse.StrangerServed | AP_UNIX/chapter18/loop.c:140-171 | from the server's start, in the loop's order: after an early hang-up a new connection that has asked for nothing gets a child if and only if the search for the old request goes on to a line, and otherwise gets the error and is ended |
| Misuse.NotedElsewhere | AP_UNIX/chapter18/client.c:64-76 | in any state the exit of the child just forked for a slot is noted there if and only if no earlier slot remembers its pid |
| Misuse.PidRemembered | AP_UNIX/chapter18/client.c:46-58 | from the server's start, with polite clients: if fork() returns a pid that an earlier free slot remembers, the failure of the child is noted in the free slot, and its client keeps a line, with no child and no answer |
| Misuse.LineGivenAway | AP_UNIX/chapter18/loop.c:74-82 | from the server's start, with polite clients: then the hang-up of the next connection in the free slot gives up the other client's line while its child runs |
| Misuse.StatusInNewMemory | AP_UNIX/chapter18/client.c:16-17 | from the server's start: child_done forks for a connection without a request if and only if new memory holds a failure status and the search for what it holds succeeds, and sends it an error if and only if it holds one and the search fails |
| Server.Server.ClientAdd | AP_UNIX/chapter18/client.c:23-43 | takes the first free slot; a full table grows with its old entries kept, and the second search takes the first new slot |
| Server.Server.ClientDel | AP_UNIX/chapter18/client.c:46-58 | frees the first slot with this descriptor; fails if and only if there is none |
| Server.Server.ClientSigChld | AP_UNIX/chapter18/client.c:64-76 | notes the status for the first slot with this pid; fails if and only if there is none |
| Server.Server.SigChld | AP_UNIX/chapter18/sigchld.c:5-25 | for any pid, does what the transition system does: the exit is noted for the first slot with the pid, a child killed by a signal is only reaped, and the server quits if and only if a child exited that no slot remembers |
| Server.Server.SearchSystems | AP_UNIX/chapter18/request.c:10-31 | from the client's position the loop stops where the search function says, with its position, count and text, changing no lock's holder |
| Server.Server.Request | AP_UNIX/chapter18/request.c:3-60 | forks, fails with the search's error text, or dies, exactly as the search function says; a fork gives exactly the chosen line to the child |
| Server.Server.TryOrDrop | AP_UNIX/chapter18/loop.c:108-115 | the new state is that of the transition system: another child, or that one error sent and the slot free |
| Server.Server.ChildDone | AP_UNIX/chapter18/loop.c:132-179 | the new state, with every error text sent, is exactly that of the transition system's pass over the slots, and the server quits exactly when that does |
| Server.Server.AcceptOne | AP_UNIX/chapter18/loop.c:47-59 | the new state is exactly that of the transition system, so select set, maxima and table agree |
| Server.Server.ReadOne | AP_UNIX/chapter18/loop.c:70-121 | for any input, also a hang-up while the child runs or a second request, the new state is exactly that of the transition system |
| Server.Server.ReadClients | AP_UNIX/chapter18/loop.c:67-122 | the pass over the clients that are ready does the same slot by slot, and the server quits exactly when it should |
| Server.Server.Loop | AP_UNIX/chapter18/loop.c:32-123 | for every sequence of events the server is at every wait where the run of the transition system that answers these events in this order is, with child_done run whenever the flag is up, and it quits exactly when that run does; a held line is never taken |
| Server.Server.DevFind | AP_UNIX/chapter18/devfile.c:53-67 | finds the first device of the entry's type and class |
| Printer.Lossless | AP_UNIX/input.c:85-158 | for every input, the rendering of the recognised events followed by the pending text is the input without its EOF characters |
| Printer.StepSends | AP_UNIX/input.c:94-157 | each character is mailed, kept in a body, or pending: none is lost or repeated in any of the six states |
| Printer.LosslessInPieces | AP_UNIX/input.c:45-79 | taking a stream in piece by piece, however it is cut, comes to the same as the whole stream, and loses nothing |
| Printer.FeedConcat | AP_UNIX/input.c:75-77 | how input is cut into reads makes no difference |
| Printer.Undoes | AP_UNIX/input.c:94-157 | feeding the rendering of any events gives back exactly those events and ends in NORMAL if and only if no mailed text or body runs into the markers |
| Printer.Losses | AP_UNIX/input.c:112-152 | a percent mailed before a message loses the message, and a body that ends in its only right bracket never ends; one that ends in two does |
| Printer.MarkersAreAmbiguous | AP_UNIX/input.c:102-124 | for every body a message and a run of mailed text render alike, so no recogniser could undo all printing |
| Printer.BufferedMeans | AP_UNIX/message.c:21-27 | a body without NUL is buffered unchanged if it is shorter than 1024 bytes and cut to 1023 if not, and NULs anywhere in a body make no difference |
| Printer.MessageHandedOver | AP_UNIX/message.c:13-36 | in the NORMAL state the text of a message, whose body does not complete a closing or end inside one, has no EOF or NUL and fits, makes exactly one call more, proc_msg of exactly that body |
| Printer.EofsCounted | AP_UNIX/input.c:87-89 | the count is the number of EOF characters in the input, and they and nothing else are left out of what is parsed |
| Printer.Input.MsgChar | AP_UNIX/message.c:21-27 | the buffer holds the first 1023 bytes of the body that are not NUL |
| Printer.Input.ProcInputChar | AP_UNIX/input.c:84-158 | the six-state switch does one step of the specification; EOFs are only counted, and all else is dropped while input is ignored |
| Printer.Input.ProcUptoEof | AP_UNIX/input.c:28-39 | reads up to and including the first piece with an EOF, processing or ignoring exactly those pieces, and the count grows by their EOFs |
| Descriptor.Framing | AP_UNIX/proc_com_43pbds.c:41-137 | for any text without NUL and any segmentation that keeps the last two bytes together the callback gets exactly the text, in order, and the caller the descriptor or the error; split between those bytes, recv_fd dies |
| Descriptor.RecvFd | AP_UNIX/proc_com_43pbds.c:93-136 | the receive loop makes the calls and returns the result of the specification on every sequence of segments, well formed or not |
| Descriptor.ScanBuffer | AP_UNIX/proc_com_43pbds.c:117-130 | the scan of one buffer finds the terminator exactly where it may stand and dies on any other NUL |
| Descriptor.ErrorsArrive | AP_UNIX/proc_com_43pbds.c:54-61 | an error arrives as a value in -255..-1, and as itself if and only if it was in that range |
| Walk.Walker.DoPath | AP_UNIX/iterdir.c:49-87 | the callbacks are the preorder of paths and kinds, cut after the first nonzero result, each with the right path in the shared buffer; on return the buffer holds the node's path again, or, for an unreadable directory at which the callback returned 0, the path with a slash |
| Walk.Walker.DoEntries | AP_UNIX/iterdir.c:73-80 | the entries of one directory, each name copied over the one before, though an earlier one may have left its slash |
| Walk.MyFtw | AP_UNIX/iterdir.c:42-47 | a whole walk equals the pure traversal, and if it returns 0 each of the seven counters is the number of nodes of its type, counted on the tree alone, unreadable directories with the rest |
| Walk.CountsAreComplete | AP_UNIX/iterdir.c:89-116 | after a walk that is not cut short each of the seven counters has grown by the number of nodes of its type, counted on the tree alone, and they sum to the number of nodes that lstat succeeds on |
| Walk.VisitsMean | AP_UNIX/iterdir.c:57-80 | the callback of a walk that is not cut short is called for exactly the nodes that can be reached through readable directories by names other than dot and dot-dot, each with its own path and under its own type, an unreadable directory under both of its types |

## Left out

- Database.DB.ReplaceOld: between the second and the fourth write of the delete the chain is broken, so nothing is said of lookups at those two writes.
- Database.DB.Delete: for the same reason only the last of its four writes is tied to a map.
- Runs.RunAndScan: after the first key that holds the separator only lookups are described, not further stores and deletes.
- Server.Server.SigChld: signals arrive between the steps of the loop, not in the middle of one, and one exit is reaped for each; the `goto again` of `child_done` is therefore never taken, and `select` and its interruption are not modelled.
- Server.Server.Fork: stands for `fork()`; its result is positive and holds no line. A polite run also takes it to differ from every pid that a slot still remembers; `Misuse.PidRemembered` and `Misuse.LineGivenAway` are what happens otherwise.
- Server.Server.Accept: stands for `accept()`; its result is not open.
- Protocol.RunGood: new memory is taken to hold no exit status and no positive pid, which the code does not ensure; `Misuse.StatusInNewMemory` is what happens otherwise, and `Dialer.RunSafe` does without.
- Walk.MyFtw: the path buffer is taken to be large enough for every path below the start; the code does not check.
- Concurrent correctness of the database: for the map operations are atomic. What interleaving processes may do is proved of the locks alone: no deadlock, exclusion, and which locks a process holds at each of its writes.
- Closing a database, opening an existing one whose files are not well formed, and the failure of system calls other than short reads.
- Memory allocation, `errno`, system logs, error texts beyond which one it is, and `db_stats`.
- Aliasing of the key with the index buffer in `_db_writeidx`, the overflow of that buffer before its length is checked, and the widths of C integers, but for the 64-bit sum of the hash and the byte that `send_fd` stores.
- `proc_msg`, which reads a variable that is never set, the mail it sends, and the interrupt and alarm handling of `proc_some_input`.
- `send_err` in the descriptor code, which tests a variable that is never set; error text is taken as bytes already sent.
- The dialing child itself, terminals, modems, `expect_str`, command-line parsing and debug output in the dialer.
- The Devices file is a sequence of parsed lines.
- A file tree that changes while it is walked, `closedir`, and the percentages that `main` prints.
