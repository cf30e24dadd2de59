# scas server core, modelled in Dafny

scas is a content-addressed snapshot store. A client pushes a snapshot by sending the root meta of a directory tree. The server walks that tree depth first. It asks the client (DATA_FETCH) for every directory object its store lacks, reads each one into the store's write slot and publishes it in the store's index.

This project models the parts of the server that do that work:

- the object store of `server/scas_cas.c`:
  - a sorted in-memory index of entries keyed by 20-byte fingerprints;
  - the hex object names under `cache/`;
  - reference counts;
  - a single write slot that `begin_write` fills and `end_write` publishes;
- the bump allocator of `server/scas_linear_allocator.c`, which reserves address space and commits pages behind a cursor;
- the connection engine of `server/scas_connection.c`:
  - a pool of connection records on two intrusive circular lists, refilled sixteen at a time;
  - the resumable non-blocking read and write of one buffer;
  - the command dispatch;
  - the resumable SNAPSHOT_PUSH walk, which keeps an explicit stack of 1024 frames;
- the directory-object layout of `common/scas_meta.h`: a header, the file metas, the u32 name offsets and the NUL-terminated names;
- the flag validator, the argument callbacks and the FUSE answers of `client/main.c`.

## How state is modelled

- The index, the counters and the write slot are fields of the class `Cas.Store`.
- The object files are a map from path to contents. It is a real field, not a ghost one, because `scas_cas_contains` steers the walk.
- The allocator's pointers are offsets from the start of its reservation.
- The two lists of the pool are `next`/`prev` sequences over slot numbers. Slot 0 is the free-list anchor and slot 1 the live-list anchor. Ghost sequences (`freeList`, `liveList`) give each ring's contents, and the predicate `Ring` ties them to the links.
- A connection's `ptr` is a datatype that names which buffer a transfer targets. The bytes it writes land in that buffer: the header, a field of the push context, or the write slot's mapping.
- The socket is an object holding the answers its future `read` and `write` calls will give.
- Everything the process learns from the system is an input:
  - descriptors;
  - `ENFILE` retries;
  - the page size;
  - whether `open` and `fstat` succeed;
  - the payload size a push header announces. `scas_header_payload_size` is called but not defined in the source.
- Structs are sent raw in host byte order. The model fixes the host as little-endian LP64: a header is 16 bytes, a file meta 40, a directory header 24, a fetch packet 40, and the push context 12432.
- A failed `assert`, an `abort()`, or a step that is undefined behaviour in C (a NULL dereference, an index past an array) is `Abort` or `Fatal`. The model does not continue past it.

The source is unfinished and has a number of defects; they are listed under "## Findings". Each one is modelled twice. A member named `AsWritten…` follows the code as written, and a lemma states the input that goes wrong. The operation under its plain name is the evidently intended behaviour, with its property proved. The rest of the model uses the intended definitions.

Three places where the code does not do what it appears to intend; the model follows the code:

- `scas_cas_create_filename` never writes the `/` separator. The test `idx == 2` is made right after the high nibble is written, when `idx` is odd, so it never holds. An object name is therefore 40 hex digits and a NUL (`CasIndex.CreateFilename`), not 2·20+2 characters.
- A round that starts in RECEIVING_HEADER after a push has paused keeps reading into whatever buffer the push left `ptr` at (its fetch packet, its push header, the write slot), not into the header. Only when that transfer completes does the dispatch run, on the header received before the push, so it enters the push handler again (`Dispatch.ReceiveCommand`, `Dispatch.Iterate`).
- The enum declares `CMD_SHAPSHOT_PULL`, but the switch uses `CMD_SNAPSHOT_PULL`. The model takes them to be the same value.

## Model

| member | source | states |
|---|---|---|
| `Hash.Memcmp` | server/scas_cas.c:60 | `memcmp` over two byte strings is 0 exactly when they are equal, and it is the difference of the first differing pair of bytes, so it lies in -255..255 |
| `Hash.MemcmpAntisymmetric` | server/scas_cas.c:51-61 | swapping the operands of the comparison negates its result |
| `Hash.LessTransitive` | server/scas_cas.c:51-61 | the byte order the index is kept in is transitive |
| `Hash.LessTotal` | server/scas_cas.c:51-61 | two distinct fingerprints are ordered one way or the other, so `bsearch` over a sorted index is well defined |
| `Hash.EncodeLE` | common/scas_packet.h:13 | the little-endian encoding of an integer has the requested number of bytes |
| `Hash.DecodeLE` | common/scas_packet.h:13 | the value read from n little-endian bytes is below 256^n |
| `Hash.DecodeEncodeLE` | common/scas_packet.h:13 | an integer that fits n bytes is read back from its encoding unchanged |
| `Hash.EncodeDecodeLE` | common/scas_packet.h:13 | re-encoding the value of a byte string gives the same bytes |
| `Hash.LowByteLE` | common/scas_meta.h:15 | the first byte of an encoding is the value's lowest byte (where the directory flag bit lives) |
| `Packet.EncodeHeader` | common/scas_packet.h:16-20 | a header goes on the wire as 16 bytes: a u64 size, a u32 command and 4 bytes of padding |
| `Packet.DecodeHeader` | common/scas_packet.h:16-20 | any 16 bytes read as a header give fields in the ranges of their C types |
| `Packet.HeaderRoundTrip` | common/scas_packet.h:16-20 | a header whose fields fit their types is read back from its bytes unchanged |
| `LinearAllocator.SizeLimitIsPowerOfTwo` | server/scas_linear_allocator.c:27 | the `size_t` range (2^64) the masks wrap in is a power of two |
| `LinearAllocator.AlignUp` | server/scas_linear_allocator.c:72 | when the sum does not wrap, rounding up `(size + m - 1) & ~(m - 1)` gives the smallest multiple of m that is at least `size`; when the sum wraps in `size_t`, it gives 0 |
| `LinearAllocator.RoundDownOfSum` | server/scas_linear_allocator.c:27 | clearing the low bits of the wrapped sum is a multiple of m in `[size, size + m)`, or 0 after a wrap |
| `LinearAllocator.Allocator.EnablePages` | server/scas_linear_allocator.c:19-32 | the committed end lies a whole number of pages past `memory`, at least `size` and less than a page beyond it |
| `LinearAllocator.Allocator.Create` | server/scas_linear_allocator.c:34-62 | requires a power-of-two capacity and a header smaller than a page. The cursor then sits just past the three-pointer header, exactly one page is committed, the limit is `max_size`, and the allocator invariant holds |
| `LinearAllocator.Allocator.Alloc` | server/scas_linear_allocator.c:64-94 | aborts exactly when the aligned request would reach the limit. Otherwise it returns the old cursor, advances the cursor by the aligned size (so the block fits below the new cursor and successive blocks are disjoint and increasing), and commits pages only when the cursor passes the committed end. The invariant `ptr <= enabled_region_end` holds throughout, and the committed end stays a multiple of the page size |
| `LinearAllocator.Destroy` | server/scas_linear_allocator.c:96-110 | NULL releases nothing. Otherwise exactly `heap_limit - allocator` bytes are released and the reservation is gone; the allocator's fields are unchanged |
| `Meta.IsDirectory` | common/scas_meta.h:34-38 | `scas_is_directory(flags)` holds exactly when bit 0 (`flag_is_directory`) is set |
| `Meta.FlagBitZero` | common/scas_meta.h:8 | for the flags read as a u32, the directory test is the parity of the value |
| `Meta.LowBitOfLowByte` | common/scas_meta.h:8 | bit 0 of a value is bit 0 of its lowest byte |
| `Meta.DirectoryFlagByte` | common/scas_meta.h:11-17 | a laid-out meta is a directory exactly when bit 0 of its byte 16 (the low byte of `flags`) is set |
| `Meta.EncodeFileMeta` | common/scas_meta.h:11-17 | a `scas_file_meta_t` is 40 bytes on LP64, in the order timestamp, size, flags, content |
| `Meta.DecodeFileMeta` | common/scas_meta.h:11-17 | reading 40 bytes as a meta gives fields in the ranges of their C types |
| `Meta.FileMetaRoundTrip` | common/scas_meta.h:11-17 | a meta whose fields fit their types is read back from its 40 bytes unchanged |
| `Meta.MetaBlob` | common/scas_meta.h:23 | the meta array of n entries is n·40 bytes |
| `Meta.IndexBlob` | common/scas_meta.h:24 | the name-offset array of n entries is n·4 bytes |
| `Meta.CString` | server/scas_connection.c:452-458 | a name read as a C string is no longer than the bytes it is read from |
| `Meta.MetaBlobAt` | common/scas_meta.h:23 | meta i occupies bytes `[40·i, 40·(i+1))` of the meta array |
| `Meta.IndexBlobAt` | common/scas_meta.h:24 | offset i occupies bytes `[4·i, 4·(i+1))` of the offset array and encodes where name i starts |
| `Meta.NameBlobAt` | common/scas_meta.h:25 | name i and its NUL lie inside the name blob at the offset recorded for it |
| `Meta.CStringOfTerminated` | server/scas_connection.c:452-458 | what a C-string read finds at a name followed by a NUL is that name |
| `Meta.EncodeDirectorySplit` | common/scas_meta.h:20-25 | a laid-out directory is the count, the parent, the n metas, the n offsets and the names, each at the offset the layout comment gives |
| `Meta.DirectoryHeaderRoundTrip` | common/scas_meta.h:28-32 | from a laid-out directory, `num_entries` and the parent read back as written |
| `Meta.DirectoryMetaRoundTrip` | common/scas_meta.h:40-47 | meta i of a laid-out directory sits at `scas_get_file_meta_base` + 40·i, right after the header, and reads back as written |
| `Meta.DirectoryNameIndexRoundTrip` | common/scas_meta.h:24 | offset i of a laid-out directory sits after the n metas and reads back as the start of name i |
| `Meta.IndexRead` | common/scas_meta.h:24 | a u32 offset read from a window holding the offset array is the start of the corresponding name |
| `Meta.DirectoryNameRoundTrip` | server/scas_connection.c:452-458 | the name of entry i, read as the NUL-terminated string at `names[indices[i]]`, is the name that was written |
| `CasIndex.Comparator` | server/scas_cas.c:51-61 | the comparator is 0, negative or positive exactly when the fingerprints are equal, in order, or in reverse order |
| `CasIndex.CacheFind` | server/scas_cas.c:63-77 | on a sorted index the binary search returns a position holding the key exactly when the key is indexed, and NULL otherwise |
| `CasIndex.SortedUnique` | server/scas_cas.c:63-77 | in a sorted index a fingerprint occupies at most one position, so the entry `bsearch` finds is the only one |
| `CasIndex.FindDestination` | server/scas_cas.c:111-142 | on a sorted range, with everything before it smaller and everything after it larger, it answers "equal" (abort) exactly when the key is indexed. Otherwise it answers the split point between smaller and larger entries |
| `CasIndex.Destination` | server/scas_cas.c:111-142 | the insert position is undefined exactly when the key is already indexed. Otherwise inserting the key there keeps the index sorted |
| `CasIndex.AsWrittenFindMisorders` | server/scas_cas.c:129-141 | as written, with `== 1` and the rightward step taken when the midpoint is greater, a larger key is placed before a smaller entry and the index is no longer sorted |
| `CasIndex.AsWrittenFindDiverges` | server/scas_cas.c:129-131 | as written, a one-entry range whose fingerprint's first differing byte is exactly one above the key's (`memcmp` answers 1) recurses on the same range and never returns |
| `CasIndex.InsertAt` | server/scas_cas.c:165-171 | inserting into the index makes it exactly one entry longer |
| `CasIndex.InsertAtContents` | server/scas_cas.c:165-171 | the insert keeps every entry and adds the new one: entries before the position stay, the new one is at the position, the rest move up by one, and the multiset grows by exactly that entry |
| `CasIndex.InsertAtSorted` | server/scas_cas.c:165-171 | inserting at a split point keeps the index sorted |
| `CasIndex.AsWrittenShiftLoses` | server/scas_cas.c:170 | the `memmove` as written shifts toward the front: the entry at the insert position is overwritten and its fingerprint is no longer indexed |
| `CasIndex.HexName` | server/scas_cas.c:90-104 | every byte becomes two hex digits |
| `CasIndex.HexDigitInjective` | server/scas_cas.c:85 | different nibbles give different characters of `hex_chars` |
| `CasIndex.NibblesDetermineByte` | server/scas_cas.c:93-94 | a byte is determined by its two nibbles |
| `CasIndex.HexNameAppend` | server/scas_cas.c:90-104 | one more byte appends its high nibble's digit and then its low nibble's digit |
| `CasIndex.HexNameHead` | server/scas_cas.c:96-103 | a name starts with the first byte's high then low digit, followed by the name of the remaining bytes |
| `CasIndex.HexNameInjective` | server/scas_cas.c:90-104 | distinct byte strings of equal length have distinct hex names |
| `CasIndex.HexNameHasNoSeparator` | server/scas_cas.c:98-101 | no `/` and no NUL is ever written among the digits |
| `CasIndex.PathInjective` | server/scas_cas.c:184-188 | distinct fingerprints have distinct object paths |
| `CasIndex.CStr` | server/scas_cas.c:189 | the path `stat` sees has no NUL and is no longer than the buffer |
| `CasIndex.CStrOfTerminated` | server/scas_cas.c:106 | a name followed by its NUL terminator reads as that name |
| `CasIndex.CreateFilename` | server/scas_cas.c:79-109 | the loop writes exactly the 40 hex digits and a NUL (41 characters) at the given place and nothing else. The length assertion fails exactly when 41 exceeds the length it is given |
| `CasIndex.InitialFilename` | server/scas_cas.c:184 | the buffer holds `FILENAME_SIZE` (47) characters: `"cache/"`, then NULs |
| `CasIndex.FilenameFits` | server/scas_cas.c:26 | `"cache/"` and a 41-character name fill `FILENAME_SIZE` exactly, and the result reads as the object's path |
| `CasIndex.AsWrittenFilenameIgnoresHash` | server/scas_cas.c:188 | as written, the name starts after the root's NUL (one byte past the buffer's end). The check against `sizeof filename` passes, yet the path read from the buffer is `"cache/"` for every fingerprint |
| `Cas.Truncate` | server/scas_cas.c:272 | after `ftruncate` the file has exactly `size` bytes: its old bytes up to `size`, then zeros |
| `Cas.ObjectPath` | server/scas_cas.c:184-188 | the paths the store's operations open are `"cache/"` followed by the hex name |
| `Cas.InsertFresh` | server/scas_cas.c:171-176 | an entry stamped with the counter keeps ids below the incremented counter and pairwise distinct, and keeps every indexed object on disk |
| `Cas.UpdateKeeps` | server/scas_cas.c:205 | changing an entry's other fields while keeping its fingerprint and id preserves every index invariant |
| `Cas.InsertThenUpdate` | server/scas_cas.c:236-242 | filling in an inserted entry is the same as inserting the filled-in entry |
| `Cas.Room` | server/scas_cas.c:153-163 | one more page covers one more entry |
| `Cas.Grow` | server/scas_cas.c:153-163 | the commit limit advances by exactly one page when the next entry would pass it, and otherwise stays. Afterwards the index fits below the limit. Growth fails exactly when the reservation is exhausted |
| `Cas.Store.constructor` | server/scas_cas.c:29-33 | the globals start zeroed: no index, no pages, counter 0, an empty slot |
| `Cas.Store.Initialize` | server/scas_cas.c:35-49 | the first call sets up an empty index with nothing committed. A later call changes nothing |
| `Cas.Store.Contains` | server/scas_cas.c:181-192 | answers exactly whether the object's file exists |
| `Cas.Store.AllocateEntry` | server/scas_cas.c:144-179 | aborts exactly when the fingerprint is already indexed or the reservation is full. Otherwise it inserts one entry at the insert position with the counter as its id, increments the counter, and advances the commit limit by a page exactly when needed. The index stays sorted, ids stay unique and below the counter, and the index fits the committed pages. The new entry starts with no references, where the code as written leaves the displaced entry's count (`Cas.AsWrittenCountInherited`) |
| `Cas.Store.ReadAcquire` | server/scas_cas.c:194-245 | on a hit, that entry's reference count goes up by one and nothing else changes. If the file is missing, the open fails for a reason other than ENFILE, or `fstat` fails, the call returns NULL and the index is unchanged. On an openable miss it aborts exactly when the reservation is full; otherwise exactly one entry is inserted for the fingerprint, mapping the whole file, with its size, the new descriptor and one reference. ENFILE retries from the start |
| `Cas.Store.Retain` | server/scas_cas.c:202-208 | the hit path increments exactly that entry's reference count and keeps the invariants |
| `Cas.Store.Admit` | server/scas_cas.c:236-244 | the miss path inserts exactly one entry holding the mapped file, its length, the descriptor and exactly one reference, not one more than the displaced entry held |
| `Cas.Store.ReadRelease` | server/scas_cas.c:247-254 | decrements exactly that entry's reference count. Nothing is unmapped or removed |
| `Cas.Store.BeginWrite` | server/scas_cas.c:256-283 | aborts exactly when the slot is not empty (mem, size or fd set) or the file cannot be opened. Otherwise the file is cut or extended to `size` bytes, and the slot records the fingerprint, the mapping, the descriptor and the size |
| `Cas.Store.WriteSlot` | server/scas_connection.c:357-359 | bytes read into the slot's shared mapping change the mapped file in the same way and nothing else |
| `Cas.Store.EndWrite` | server/scas_cas.c:285-305 | inserts an entry with the slot's fingerprint, mapping, descriptor and size at its sorted position, then zeroes the slot so the next `begin_write` is allowed. It aborts exactly when the fingerprint is indexed or the reservation is full. The published entry starts with no references, where the code as written keeps the displaced entry's count |
| `Cas.AsWrittenMissEntry` | server/scas_cas.c:236-242 | as written, the entry the miss path fills keeps the fingerprint of the memory it reuses, and its count goes up from whatever that memory held, because neither `allocate_entry` nor the caller stores the fingerprint |
| `Cas.AsWrittenPublished` | server/scas_cas.c:296-300 | as written, `end_write` copies the fingerprint, mapping, descriptor and size into the entry `allocate_entry` returns, which sets only the id, so the reference count is the one at that slot |
| `Cas.AsWrittenCountInherited` | server/scas_cas.c:169-176 | once the gap is opened, the insertion point still holds the displaced entry. In front of an entry holding references, the object `end_write` publishes starts with that many references nobody took, and a miss of `read_acquire` gives one more than it took |
| `Cas.AsWrittenMissEntryUnfindable` | server/scas_cas.c:236-242 | in an empty index, the object read as written is stored under the zero fingerprint, so a later lookup of its own fingerprint misses |
| `Cas.AsWrittenOpenForWrite` | server/scas_cas.c:269-270 | `open(..., O_RDWR)` without `O_CREAT` succeeds only for a file that already exists |
| `Cas.AsWrittenBeginWriteAborts` | server/scas_cas.c:269-270 | as written, `begin_write` for an object the store does not have fails its assertion, which is every object the walk fetches |
| `Connection.Transfer` | server/scas_connection.c:181-200 | a transfer of r bytes advances the offset by r, so it never passes `size`, and answers 0 exactly when the offset reaches `size`. Would-block leaves the offset and answers 1; any other error fails the assertion |
| `Connection.TransferCompose` | server/scas_connection.c:181-200 | two partial transfers of a and b bytes end where one transfer of a + b ends, with the same answer |
| `Connection.Place` | server/scas_connection.c:183-186 | bytes delivered at the offset replace exactly that window of the buffer |
| `Connection.PlaceCompose` | server/scas_connection.c:183-186 | delivering two chunks one after the other is delivering their concatenation |
| `Connection.PlaceAll` | server/scas_connection.c:183-186 | delivering a sequence of chunks leaves the buffer's length unchanged |
| `Connection.PlaceAllIsPlace` | server/scas_connection.c:183-186 | delivering chunks over several resumed calls is the same as delivering their concatenation at once |
| `Connection.Socket.constructor` | server/scas_connection.c:186 | a peer starts with its pending answers and nothing sent to it |
| `Connection.Socket.ReadAnswer` | server/scas_connection.c:186 | a `read` delivers no more than it asked for, and the count it reports is exactly the bytes delivered |
| `Connection.Socket.Receive` | server/scas_connection.c:186 | a `read` takes the peer's next answer. The part of a chunk beyond the request stays for the next read |
| `Connection.Socket.WriteAnswer` | server/scas_connection.c:186 | a `write` accepts no more than it was given |
| `Connection.Socket.Send` | server/scas_connection.c:186 | the peer has received exactly the accepted prefix of what was written |
| `Connection.PushContext.constructor` | server/scas_connection.c:219-230 | a context in freshly committed pages is all zeros: state INITIAL, depth 0, no root, 1024 zero frames |
| `Connection.Connection.constructor` | server/scas_connection.c:93 | a `calloc`ed record is zeroed |
| `Connection.Connection.Deposit` | server/scas_connection.c:183-186 | received bytes land in the buffer `ptr` names, at the offset, and change no other buffer or field |
| `Connection.Connection.Read` | server/scas_connection.c:203 | `scas_connection_read`: the buffer gets exactly the bytes the socket delivers, at the offset, and offset and answer follow `Transfer` |
| `Connection.Connection.Point` | server/scas_connection.c:342-344 | retargeting sets `ptr`, a zero offset and the size, and nothing else |
| `Connection.Connection.Seek` | server/scas_connection.c:191 | moving the offset keeps the buffer and the target |
| `Connection.Connection.Write` | server/scas_connection.c:204 | `scas_connection_write`: the peer receives exactly the accepted bytes of `buffer[offset..size]`, and offset and answer follow `Transfer` |
| `Connection.Connection.Reset` | server/scas_connection.c:131-146 | zeroes the header and clears allocator, context, ptr, size and offset, keeping the state. The allocator's reservation is released |
| `Connection.Connection.Clear` | server/scas_connection.c:154 | the `memset` of `free` zeroes the whole record, state included |
| `ConnectionPool.AddLinks` | server/scas_connection.c:62-73 | after `list_add`, `anchor.next` is the record, the old first record's `prev` is the record, the record's links are the old first record and the anchor, and no other link changes |
| `ConnectionPool.RemoveLinks` | server/scas_connection.c:47-60 | after `list_remove`, the neighbours are linked to each other, the record's links are NULL, and no other link changes |
| `ConnectionPool.RingNext` | server/scas_connection.c:114 | following `next` from a ring's k-th record reaches the (k+1)-th, or the anchor after the last |
| `ConnectionPool.RingFrame` | server/scas_connection.c:44-45 | a ring depends only on its own records' links and its anchor's |
| `ConnectionPool.RingGrow` | server/scas_connection.c:93 | appending unlinked records leaves every ring intact |
| `ConnectionPool.InsertedLinksAt` | server/scas_connection.c:69-72 | after adding at the head, every later record of the ring keeps correct links |
| `ConnectionPool.AddToRing` | server/scas_connection.c:62-73 | adding a record that is on no list makes it the head of the anchor's ring |
| `ConnectionPool.AddKeepsRing` | server/scas_connection.c:62-73 | adding to one ring leaves the other ring as it was |
| `ConnectionPool.Drop` | server/scas_connection.c:47-60 | removing the j-th record shortens the ring's contents by one and keeps the others in order |
| `ConnectionPool.DropDistinct` | server/scas_connection.c:47-60 | the removed record appears nowhere in what remains, and nothing new appears |
| `ConnectionPool.RemoveLinksAt` | server/scas_connection.c:52-56 | after removal, every remaining record of the ring has correct links |
| `ConnectionPool.RemoveFromRing` | server/scas_connection.c:47-60 | removing the j-th record closes the gap: the rest is still a ring |
| `ConnectionPool.RemoveKeepsRing` | server/scas_connection.c:47-60 | removing from one ring leaves the other ring as it was |
| `ConnectionPool.IsEmptyIff` | server/scas_connection.c:75-81 | an anchor links to itself both ways exactly when its ring is empty |
| `ConnectionPool.FirstWithFd` | server/scas_connection.c:114-120 | the first live record with the descriptor, if any; no record before it has that descriptor |
| `ConnectionPool.Pool.constructor` | server/scas_connection.c:44-45 | the static anchors start zeroed: both links of both anchors NULL, no descriptor |
| `ConnectionPool.Pool.Initialize` | server/scas_connection.c:159-169 | both anchors point to themselves, so both lists are empty |
| `ConnectionPool.Pool.ListAdd` | server/scas_connection.c:62-73 | the links become exactly `AddLinks` of the old links |
| `ConnectionPool.Pool.ListRemove` | server/scas_connection.c:47-60 | the links become exactly `RemoveLinks` of the old links |
| `ConnectionPool.Pool.IsEmpty` | server/scas_connection.c:75-81 | answers exactly whether the list is empty |
| `ConnectionPool.Pool.Push` | server/scas_connection.c:62-73 | a record on no list becomes the head of the chosen list. Both rings stay well formed and disjoint |
| `ConnectionPool.Pool.NewSlab` | server/scas_connection.c:93 | a slab is sixteen fresh, zeroed records |
| `ConnectionPool.Pool.Extend` | server/scas_connection.c:93 | the slab's sixteen records are appended unlinked, with descriptor 0, and the lists are unchanged |
| `ConnectionPool.Pool.Refill` | server/scas_connection.c:88-98 | an empty free list becomes the sixteen new records, the last one first |
| `ConnectionPool.Pool.PushSlab` | server/scas_connection.c:94-97 | the loop links slab record i at the head on each turn, so the free list counts down from the slab's last record |
| `ConnectionPool.Pool.CountdownTail` | server/scas_connection.c:102-103 | taking the head of the countdown leaves the countdown below it |
| `ConnectionPool.Pool.Countdown` | server/scas_connection.c:96 | pushing the next slot extends the countdown and never repeats a slot |
| `ConnectionPool.Pool.TakeFree` | server/scas_connection.c:102-105 | the free list's head is taken off the free list, with NULL links, and is on no list |
| `ConnectionPool.Pool.Allocate` | server/scas_connection.c:83-106 | returns the free list's first record, which is then on no list. On an empty free list it first links sixteen fresh zeroed records and returns the last of them |
| `ConnectionPool.Pool.RefillThenAllocate` | server/scas_connection.c:88-100 | refill, then the recursive call: the sixteenth new record is returned and the other fifteen stay free |
| `ConnectionPool.Pool.FindLive` | server/scas_connection.c:114-120 | one pass round the live ring finds the first live record with the descriptor, or reports that there is none |
| `ConnectionPool.Pool.Find` | server/scas_connection.c:108-129 | returns the first live record with the descriptor, changing nothing. Otherwise a newly allocated record with that descriptor is added at the head of the live list |
| `ConnectionPool.Pool.AllocateLive` | server/scas_connection.c:122-128 | the miss path: a record that was not live gets the descriptor and heads the live list |
| `ConnectionPool.Pool.SetFd` | server/scas_connection.c:125 | sets one record's descriptor and no link |
| `ConnectionPool.Pool.Unlink` | server/scas_connection.c:151 | the record leaves the live list, the rest in order, and is on no list |
| `ConnectionPool.Pool.Free` | server/scas_connection.c:148-157 | unlinks a live record, releases its allocator, zeroes the record (descriptor included) and puts it at the head of the free list |
| `ConnectionPool.AsWrittenScan` | server/scas_connection.c:114-120 | the loop as written stops only at a record with the descriptor, or at a NULL link |
| `ConnectionPool.AsWrittenFind` | server/scas_connection.c:114 | the loop as written starts at the live anchor itself |
| `ConnectionPool.AsWrittenFindReturnsAnchor` | server/scas_connection.c:114-118 | as written, descriptor 0 (the anchor's) finds the anchor, which is handed out as a connection |
| `ConnectionPool.AsWrittenScanCircles` | server/scas_connection.c:114-120 | a circular list has no NULL link, so on a miss the loop as written cycles for any number of steps |
| `ConnectionPool.AsWrittenFindNeverAllocates` | server/scas_connection.c:122-126 | as written, a descriptor no live record holds never reaches the allocation |
| `Dispatch.RouteOf` | server/scas_connection.c:536-568 | PUSH, PULL, FETCH and QUIT have their own cases. Any other command is garbled, and only QUIT's value routes to QUIT |
| `Dispatch.RouteOfSentHeader` | server/scas_connection.c:539 | the command a received header carries routes exactly as the command the client sent |
| `Dispatch.BeginRound` | server/scas_connection.c:575-579 | NEW points the transfer at the header (the intended `ptr`) and asks for 16 bytes; every round then continues in RECEIVING_HEADER with offset, header, context and allocator kept |
| `Dispatch.DecodeZeros` | server/scas_connection.c:138 | zero bytes decode to 0 |
| `Dispatch.ResetHeaderIsGarbled` | server/scas_connection.c:138 | a header zeroed by `reset` carries command 0, which is SNAPSHOT_LIST, and the switch has no case for it |
| `Dispatch.ZeroedIsIdle` | server/scas_connection.c:154 | a zeroed record is a valid idle connection |
| `Dispatch.ProcessCommand` | server/scas_connection.c:536-568 | a garbled command is fatal. PULL and FETCH return 0 and change nothing. PUSH runs the push handler, which returns 0 or stops. QUIT frees the connection (zeroed, on the free list) and returns 1, and only QUIT returns 1 |
| `Dispatch.ReceiveCommand` | server/scas_connection.c:575-587 | NEW points the transfer at the header (the intended `ptr`), asks for 16 bytes and enters RECEIVING_HEADER. Then one read continues whatever transfer is in flight: a socket error answers abort, otherwise offset and answer follow `Transfer`, and the header changes only when the transfer targets it |
| `Dispatch.ContinueRound` | server/scas_connection.c:581-585 | RECEIVING_HEADER's read continues the transfer in flight, into whatever buffer `ptr` names: a socket error answers abort, otherwise offset and answer follow `Transfer`, the header changes only when the transfer targets it, and size and target stay |
| `Dispatch.Iterate` | server/scas_connection.c:570-592 | a socket error is fatal. A transfer still incomplete returns 0 and keeps the connection in RECEIVING_HEADER at the new offset. A complete one routes the header's command, as it stands after the read, as `ProcessCommand` states it; between push rounds that is the stored SNAPSHOT_PUSH header |
| `Dispatch.HandleConnection` | server/scas_connection.c:594-602 | the connection of the descriptor is found or allocated and runs one round. Returning 0 leaves it live with that descriptor and idle; returning 1 leaves it zeroed and off the live list |
| `Dispatch.AsWrittenBeginRound` | server/scas_connection.c:575-578 | as written, NEW asks for 16 bytes and enters RECEIVING_HEADER with `ptr` still NULL, so the transfer has no buffer behind it |
| `Dispatch.AsWrittenNewHasNoBuffer` | server/scas_connection.c:576 | a 16-byte transfer with no target does not fit any buffer, and the failed read that follows aborts |
| `SnapshotPush.FetchPrefix` | server/scas_connection.c:328-330 | the request's header and fingerprint are 36 bytes |
| `SnapshotPush.FillFetchPacket` | server/scas_connection.c:328-334 | the request is the 40-byte `scas_fetch_packet_t` |
| `SnapshotPush.FetchPacketAsks` | server/scas_connection.c:328-330 | the client reads the request as a DATA_FETCH with `packet_size` 16 + 20 for the current directory's fingerprint |
| `SnapshotPush.SurveyFrom` | server/scas_connection.c:398-420 | the scan skips entries whose content is stored and stops at the first missing one (or at a meta past the mapping). Every entry it skips is present |
| `SnapshotPush.ScanEntries` | server/scas_connection.c:398-425 | the loop over the entries finds exactly what `SurveyFrom` states |
| `SnapshotPush.AcquireDirectory` | server/scas_connection.c:394-395 | succeeds exactly when the directory can be read: an indexed entry with a mapping, or a stored file that opens and stats while the reservation has room. What it returns is the indexed mapping, or else the file's bytes, and the store maps it afterwards. A directory missing from the store is fatal |
| `SnapshotPush.ScanDirectory` | server/scas_connection.c:392-425 | an unreadable directory is fatal. A readable one is mapped and its entries are scanned from the saved index; the scan is fatal exactly when it meets a meta past the end of the mapping, and otherwise returns what `SurveyFrom` states |
| `SnapshotPush.GetParent` | server/scas_connection.c:232-242 | an unreadable directory is fatal (the source's NULL dereference). For a readable one it fails exactly when the object is shorter than the directory header, and otherwise returns the parent recorded in the object the store maps |
| `SnapshotPush.StepInitial` | server/scas_connection.c:314-322 | a stored directory goes up a level. A missing one moves to FETCHING_DIRECTORY with the finished transfer cleared |
| `SnapshotPush.PrepareFetch` | server/scas_connection.c:326-335 | with no transfer in flight, the request is filled in for the current directory and becomes the transfer from offset 0. Otherwise the pending request is resumed at its offset. Either way the transfer covers the 40-byte packet |
| `SnapshotPush.Request` | server/scas_connection.c:326-335 | the bytes the write sends from: a freshly filled request when no transfer is in flight, else the pending packet; always the 40-byte packet |
| `SnapshotPush.StepFetchingDirectory` | server/scas_connection.c:324-347 | the write of the request's remaining bytes decides the step: a socket error is fatal, a partial write yields at the new offset with exactly the written bytes sent, and a complete one points the transfer at the push header, with the state READING_DIRECTORY_HEADER |
| `SnapshotPush.SendRequest` | server/scas_connection.c:337 | one write of the request: it fails exactly when the socket errors; otherwise the offset and answer follow `Transfer`, and the peer has received exactly the bytes between the old and the new offset |
| `SnapshotPush.OpenDirectorySlot` | server/scas_connection.c:356-360 | fails exactly when the write slot is busy or the object cannot be opened. Otherwise `begin_write` for the current directory with the announced payload size, and reads redirected into exactly that mapping |
| `SnapshotPush.StepReadingDirectoryHeader` | server/scas_connection.c:349-361 | the response header arrives in the push header. A socket error is fatal and a partial read yields at the new offset. Once complete, it fails exactly when the slot is busy or the object cannot be opened, and otherwise the transfer targets the slot |
| `SnapshotPush.StepReadingDirectory` | server/scas_connection.c:363-383 | the object arrives in the slot. A socket error is fatal and a partial read yields at the new offset. Once complete, it fails exactly when the object is shorter than the directory header, is already indexed or the reservation is full. Otherwise `stack[depth]` becomes `{num_entries, 0}` of the received bytes, the object is published, and only this frame changes |
| `SnapshotPush.RecordDirectory` | server/scas_connection.c:374-382 | the frame is set from the object's header, then `end_write` publishes it and empties the slot. It fails exactly when the object is shorter than the header, its fingerprint is indexed, or the reservation is full |
| `SnapshotPush.StepIterating` | server/scas_connection.c:385-426 | an unreadable current directory is fatal. For a readable one, with the survey of its mapped object: a meta past the mapping is fatal; when every entry is stored it goes up a level; a missing directory child is descended into (depth + 1, the child as current, state INITIAL) unless the stack is full, which is fatal; a missing file reaches the unwritten FETCHING_FILE region |
| `SnapshotPush.FollowSurvey` | server/scas_connection.c:401-424 | the branch after the scan: all entries present goes up a level; a missing directory descends exactly when a frame is left, and is fatal otherwise; a missing file is the FETCHING_FILE region. Only a descent changes depth and current directory |
| `SnapshotPush.Descend` | server/scas_connection.c:409-411 | the descent succeeds exactly when a frame is left on the stack, and then deepens by one with the child as current |
| `SnapshotPush.StepUp` | server/scas_connection.c:433-437 | at the root the walk is complete and the connection is reset. Below it, the step goes up exactly when the current directory is readable and holds a header; then the parent it records becomes current one level up and its scan resumes |
| `SnapshotPush.Ascend` | server/scas_connection.c:433-437 | below the root, `up_one_level` succeeds exactly when the current directory is readable and holds a header; then the recorded parent becomes current and the depth drops by one, the stack untouched |
| `SnapshotPush.DefaultSizesArePowersOfTwo` | server/scas_linear_allocator.h:10 | DEFAULT_ALLOCATOR_SIZE and the word size are powers of two, as `create` demands |
| `SnapshotPush.NewArena` | server/scas_connection.c:256-258 | the context's allocation always fits the default arena |
| `SnapshotPush.InitializeContext` | server/scas_connection.c:244-269 | an existing context is returned unchanged. A connection with an allocator but no context fails the assertion. Otherwise a fresh zeroed context is made in a fresh arena, and the root read targets its 40-byte meta. Whenever the root is still awaited, the read resumes at the old offset into the old (or zeroed) meta |
| `SnapshotPush.CreateContext` | server/scas_connection.c:255-266 | the new arena and context, and the root read pointed at `snapshot_meta` |
| `SnapshotPush.FreshContextReady` | server/scas_connection.c:259-266 | a fresh context awaiting its root is a valid paused push |
| `SnapshotPush.RunBlock` | server/scas_connection.c:312-443 | one state's block, with `up_one_level` where it jumps there, keeps the walk's invariants. A yield saves only a resumable state |
| `SnapshotPush.RunTransferBlock` | server/scas_connection.c:324-383 | the three transfer states keep the walk's invariants, yield only in a resumable saved state, and stop only on a fatal step |
| `SnapshotPush.RunScanBlock` | server/scas_connection.c:312-322 | the INITIAL and ITERATING_OVER_DIRECTORY blocks, with `up_one_level` where they jump there, keep the walk's invariants; their only `Return(0)` is the completed, reset push |
| `SnapshotPush.Walk` | server/scas_connection.c:271-444 | the walk returns 0 only in a resumable saved state or after a completed, reset push. It stops only at a fatal step or the unwritten FETCHING_FILE region |
| `SnapshotPush.ReceiveRoot` | server/scas_connection.c:481-488 | one read into the root meta: a socket error is fatal, otherwise the offset follows `Transfer` and the answer is whether the meta is complete. The bytes land in the meta and nothing is sent or stored. Once complete, `have_root` is set and the current directory is the root's content |
| `SnapshotPush.HandleSnapshotPush` | server/scas_connection.c:446-502 | it only ever returns 0, and then leaves the connection ready for its next round, paused or reset. `Unfinished` means only the FETCHING_FILE region. A connection with an allocator but no context is fatal. While the root is awaited: a socket error is fatal, a partial root read returns 0 still waiting at the new offset, and a root already stored returns 0 with the connection reset, nothing sent |
| `SnapshotPush.Start` | server/scas_connection.c:479-499 | the part before the walk either returns 0, or enters the walk with the root taken and a resumable state. A push whose root is already taken enters the walk unchanged. While the root is awaited, the outcome is the one `RootReadEnds` gives for the next read; nothing is sent or stored |
| `SnapshotPush.StartFromRoot` | server/scas_connection.c:481-498 | the read's outcome is the one `RootReadEnds` gives: a socket error is fatal; a partial read waits at the new offset; a complete meta enters the walk exactly when the root is missing from the store, with the root as current directory, and a stored root resets the connection |
| `SnapshotPush.AsWrittenRootReadWaits` | server/scas_connection.c:265 | as written, the root read asks for the whole context, so after the 40-byte meta it still answers 1 and the walk never starts |
| `SnapshotPush.AsWrittenFetchSendsNothing` | server/scas_connection.c:326-337 | as written, FETCHING_DIRECTORY resumes the finished root transfer instead of filling in the request. The write of its empty rest answers 0, leaves the offset and sends the peer nothing |
| `SnapshotPush.AsWrittenDescend` | server/scas_connection.c:409 | as written, the descent deepens by one and makes the child current, with no check against the stack |
| `SnapshotPush.AsWrittenDescentOverruns` | server/scas_connection.c:409 | from the last frame, the descent as written leaves a depth equal to the stack's length, one past its last frame |
| `SnapshotPush.AsWrittenAscend` | server/scas_connection.c:433-436 | as written, `up_one_level` succeeds exactly when the current directory is readable and holds a header, and then makes its recorded parent current one level up, at any depth |
| `SnapshotPush.AsWrittenUpPastRoot` | server/scas_connection.c:433-436 | finishing the root's readable directory, `up_one_level` as written reads the root's recorded parent; when that read succeeds it leaves depth -1 |
| `SnapshotPush.AsWrittenDescentFallsThrough` | server/scas_connection.c:407-437 | as written, after the descent's `break` control falls into `up_one_level` and reads the parent of the missing child, a NULL dereference |
| `Client.Strdup` | client/main.c:29-38 | a fresh, separate buffer holding the string's characters and a NUL |
| `Client.Flags.constructor` | client/main.c:22-27 | the globals start zeroed |
| `Client.Flags.ParseForce` | client/main.c:132-140 | sets `force_mount` and changes nothing else |
| `Client.Flags.ParseReset` | client/main.c:142-150 | sets `reset_snapshot` and changes nothing else |
| `Client.Flags.ParseMount` | client/main.c:152-160 | sets `mount_snapshot` and stores a fresh copy equal to the value, changing nothing else |
| `Client.Flags.ParseCreate` | client/main.c:162-170 | sets `create_snapshot` and stores a fresh copy equal to the value, changing nothing else |
| `Client.Flags.IsValidArgs` | client/main.c:172-205 | over the globals: valid exactly when none of reset, create and mount is set |
| `Client.Validate` | client/main.c:172-205 | returns 1 exactly when none of reset, create and mount is set (force alone is accepted). A printed complaint always comes with 0 |
| `Client.ExclusiveModeRefused` | client/main.c:177-199 | a mode whose exclusivity checks all pass still returns 0, without a message |
| `Client.ResetChecksUnreachable` | client/main.c:188-196 | the "New snapshot cannot be used with …" checks of the create and mount branches never fire |
| `Client.Getattr` | client/main.c:41-57 | 0 exactly for `"/"`, with two links. Any other path answers -ENOENT |
| `Client.RootIsDirectory` | client/main.c:48 | the root's mode is a directory with permissions 0755 |
| `Client.Readdir` | client/main.c:82-97 | fills `"."` then `".."` and returns 0 |
| `Client.Open` | client/main.c:59-67 | every open answers -1 |
| `Client.Read` | client/main.c:69-80 | every read answers -EPERM |

## Left out

- `SnapshotPush.Walk`: the `for(;;)` loop is bounded by a `fuel` argument. Running out of fuel ends with `OutOfFuel`, so the model does not prove that the walk returns.
- FETCHING_FILE and `save_state_and_yield` are regions the source leaves unwritten (`#error`). Reaching FETCHING_FILE ends the walk as `Unfinished`. The yield is modelled as its two written lines: save the state, return 0.
- The inner `meta` of ITERATING_OVER_DIRECTORY shadows the outer one and is read uninitialised. The model scans the outer `meta`, which is evidently meant.
- `Cas.Store.AllocateEntry`, `Cas.Store.EndWrite` and `Cas.Store.Admit` zero every field of the new entry that the source leaves as the displaced entry's bytes. The callers overwrite all of them but `ref_count`, whose stale value is listed under "## Findings".
- `Hash.Memcmp`: C promises only the sign of `memcmp`. The model returns the difference of the first differing bytes, as glibc does, and the divergence input listed under "## Findings" for server/scas_cas.c:129-141 depends on that magnitude (`memcmp` answering exactly 1).
- `current_idx` is never advanced, so a resumed scan restarts at 0 and skips the entries that are stored. The model keeps this.
- `scas_cas_read` is declared but never defined. The walk's reads of a directory are modelled as `scas_cas_read_acquire`; they take a reference that is never released (a leak the model keeps).
- `ref_count` is used but missing from `struct scas_cas_entry_t`: it is a field of `CasIndex.Entry`. `scas_get_parent` is declared as returning `struct hash_t`; the model returns the fingerprint.
- `CMD_QUIT` and `CMD_SNAPSHOT_PULL` are not declared. QUIT's value is a parameter that must differ from every declared command, and PULL takes `CMD_SHAPSHOT_PULL`'s value.
- `scas_header_payload_size` is not defined: the payload size a push header announces is an input.
- The fingerprint function is not part of the source, so fingerprints are opaque 20-byte values. `struct scas_hash_t` is assumed to be five u32 words.
- System calls are assumed to succeed where the source asserts they do: `mmap`, `mprotect`, `munmap`, `calloc`, `ftruncate`. Page protection and faults are not modelled. Mapping a zero-length file (which `mmap` refuses) is treated as an empty mapping.
- The write slot is `static __thread`, one per thread. There are no threads here, so it is one field of the store.
- A `read` that returns 0 at end of file looks like progress of zero bytes, as it does in the source. The model does not tell end of file from a slow peer.
- The header zeroed by `reset` is no longer read again. The next round of that connection processes command 0, which the switch treats as garbled (`Dispatch.ResetHeaderIsGarbled`).
- `Dispatch.HandleConnection` proves that the connection it runs stays consistent. It does not prove that the other live connections stay idle after a push touches the shared store.
- `Client.Strdup`: the copy is a fresh array, so aliasing with the original is excluded by construction. `calloc` failure is not modelled.
- The errno values are Linux's (EPERM 1, ENOENT 2).
- `scas_handle_snapshot_pull` and `scas_handle_data_fetch` are stubs that return 0; they are modelled as such.
- `server/main.c` (epoll loop) and `common/scas_net.c` and `client/scas_net.c` (blocking socket helpers) are not part of this model. Note that `scas_write` sets `packet_size` to the payload size alone, against the header comment that it includes the header.
- `common/scas_base.c` is left out: logging, `scas_mkdir` (`scas_cas_cache_initialize` and `scas_connection_initialize` create `cache/` and `snapshot/`).
- Left out of `client/main.c`: `scas_init`, `scas_destroy` (which frees the two strings), FUSE registration and `main`. `scas_arg_parse` has no implementation to model.
- Compression of fetched data exists only as comments.

## Findings

| source | as written | input that shows it | evidently intended | confidence | as-written member | corrected member |
|---|---|---|---|---|---|---|
| server/scas_cas.c:129-141 | recurses right when `memcmp(mid, key) == 1`, left otherwise; never stops when `half == 0` | a key above the only entry is placed before it (`memcmp` answers -1); a one-entry range whose fingerprint's first differing byte is exactly one above the key's (`memcmp` answers 1) recurses forever | go right when the midpoint is smaller, left when larger, and stop on an empty range | not executed | `CasIndex.AsWrittenFindMisorders` | `CasIndex.FindDestination` |
| server/scas_cas.c:170 | `memmove(entry, entry + 1, …)` shifts toward the front | inserting in front of any entry overwrites it | `memmove(entry + 1, entry, …)` opens a gap | not executed | `CasIndex.AsWrittenShiftLoses` | `CasIndex.InsertAtContents` |
| server/scas_cas.c:236-242 | the miss path never stores the fingerprint in the new entry | reading any nonzero fingerprint into an empty index stores it under the zero fingerprint | store the fingerprint, as `end_write` does | not executed | `Cas.AsWrittenMissEntryUnfindable` | `Cas.Store.ReadAcquire` |
| server/scas_cas.c:296-300 | `end_write` fills in the entry `allocate_entry` opened but never sets `ref_count`, so the entry keeps the displaced entry's count | publishing an object in front of an entry that holds one reference: the new object starts with one reference nobody took | start the published entry with no references | not executed | `Cas.AsWrittenCountInherited` | `Cas.Store.EndWrite` |
| server/scas_cas.c:242 | `++entry->ref_count` increments the count left in the reused slot | a miss in front of an entry that holds one reference: the admitted object has two | start the admitted entry at one reference | not executed | `Cas.AsWrittenCountInherited` | `Cas.Store.Admit` |
| server/scas_cas.c:188 | the name is written after the NUL of `"cache/"` and is given `sizeof filename` as its room | any fingerprint: the path is `"cache/"`, and the 41 bytes end one past the 47-byte buffer | write at `filename + strlen(CACHE_ROOT)` with the remaining room | not executed | `CasIndex.AsWrittenFilenameIgnoresHash` | `CasIndex.FilenameFits` |
| server/scas_cas.c:269 | `open(filename, O_RDWR)` with no `O_CREAT` | `begin_write` of any object not yet stored | create the file | not executed | `Cas.AsWrittenBeginWriteAborts` | `Cas.Store.BeginWrite` |
| server/scas_connection.c:114-120 | the search starts at the anchor and stops only at NULL | descriptor 0 yields the anchor; any other missing descriptor loops forever | one pass from `anchor.next` back to the anchor, then allocate | not executed | `ConnectionPool.AsWrittenScanCircles` | `ConnectionPool.Pool.Find` |
| server/scas_connection.c:576 | NEW sets `context` to the header | the first round of every connection reads into `ptr == NULL` | set `ptr` | not executed | `Dispatch.AsWrittenBeginRound` | `Dispatch.BeginRound` |
| server/scas_connection.c:265 | the root read asks for `sizeof` the whole context | a 40-byte root meta, in one chunk or two, still answers 1 | ask for `sizeof(struct scas_file_meta_t)` | not executed | `SnapshotPush.AsWrittenRootReadWaits` | `SnapshotPush.CreateContext` |
| server/scas_connection.c:326-337 | `ptr` is left pointing at the finished root transfer | the first FETCHING_DIRECTORY of every push sends nothing | clear the transfer so the request is built | not executed | `SnapshotPush.AsWrittenFetchSendsNothing` | `SnapshotPush.StepInitial` |
| server/scas_connection.c:409 | `context->depth++` unchecked | a directory child at depth 1023 | refuse to descend past the stack | not executed | `SnapshotPush.AsWrittenDescentOverruns` | `SnapshotPush.Descend` |
| server/scas_connection.c:433-436 | `up_one_level` also runs at the root | finishing the root directory gives depth -1 and reads the root's parent | finish the push at the root | not executed | `SnapshotPush.AsWrittenUpPastRoot` | `SnapshotPush.StepUp` |
| server/scas_connection.c:409-433 | after a descent's `break`, control falls through into `up_one_level` | any missing directory child: its parent is read from an object not yet stored | continue the loop in INITIAL | not executed | `SnapshotPush.AsWrittenDescentFallsThrough` | `SnapshotPush.RunBlock` |
