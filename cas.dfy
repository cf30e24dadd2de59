/**
 * The stateful half of server/scas_cas.c: the globals `cache`,
 * `cache_end`, `cache_alloc_limit`, `cache_counter`, the static write slot,
 * and the object files under `cache/`.  The index is the sequence of
 * entries in `[cache, cache_end)`; `allocLimit` is `cache_alloc_limit -
 * cache` in bytes.  The file system is a map from path to contents, read
 * the way `stat`, `open` and `fstat` read it; descriptors the kernel hands
 * out and the `ENFILE` retries are inputs.
 */
module Cas {
  import opened Wrappers
  import opened Hash
  import opened CasIndex
  import opened Arithmetic

  /** CACHE_SIZE: the address space reserved for the index. */
  const CACHE_SIZE: nat := 0x1_0000_0000

  /** What `open` and `fstat` answer for an object file that exists. */
  datatype OpenResult = OpenRefused | Opened(fd: nat, statOk: bool)

  /** `ftruncate`: cut the file to `size` bytes or extend it with zeros. */
  function Truncate(contents: seq<Byte>, size: nat): (r: seq<Byte>)
    ensures |r| == size
    ensures forall i :: 0 <= i < size ==> r[i] == if i < |contents| then contents[i] else 0
  {
    if size <= |contents| then contents[..size] else contents + seq(size - |contents|, _ => 0)
  }

  /**
   * Finds the path of an object the way every caller in server/scas_cas.c
   * builds it, with the name written at the root's NUL (offset 6) into the
   * 41 characters that remain.
   */
  method ObjectPath(h: Hash) returns (path: string)
    ensures path == Path(h)
  {
    var init := InitialFilename();
    var filename := new char[FILENAME_SIZE](i => if 0 <= i < |init| then init[i] else NUL);
    assert filename[..] == init;
    var st := CreateFilename(filename, |CACHE_ROOT|, FILENAME_SIZE - |CACHE_ROOT|, h);
    assert filename[..] == filename[..|CACHE_ROOT|] + filename[|CACHE_ROOT|..|CACHE_ROOT| + NAME_LENGTH];
    assert filename[..] == CACHE_ROOT + HexName(h) + [NUL];
    FilenameFits(h);
    path := CStr(filename[..]);
  }

  /** Every id is a value the counter has already handed out. */
  predicate IdsBelow(index: seq<Entry>, counter: int) {
    forall i :: 0 <= i < |index| ==> 0 <= index[i].id < counter
  }

  /** No two entries share an id. */
  predicate IdsDistinct(index: seq<Entry>) {
    forall i, j :: 0 <= i < j < |index| ==> index[i].id != index[j].id
  }

  /** Every indexed object has its file. */
  predicate OnDisk(index: seq<Entry>, files: map<string, seq<Byte>>) {
    forall i :: 0 <= i < |index| ==> Path(index[i].hash) in files
  }

  /** Inserting an entry stamped with the counter keeps ids unique and below the next counter. */
  lemma InsertFresh(index: seq<Entry>, p: nat, e: Entry, counter: int, files: map<string, seq<Byte>>)
    requires p <= |index| && IdsBelow(index, counter) && IdsDistinct(index) && OnDisk(index, files)
    requires 0 <= counter && e.id == counter && Path(e.hash) in files
    ensures IdsBelow(InsertAt(index, p, e), counter + 1)
    ensures IdsDistinct(InsertAt(index, p, e))
    ensures OnDisk(InsertAt(index, p, e), files)
  {
    InsertAtContents(index, p, e);
    var r := InsertAt(index, p, e);
    forall i, j | 0 <= i < j < |r| ensures r[i].id != r[j].id {
      if i != p && j != p {
        assert r[i] == index[if i < p then i else i - 1];
        assert r[j] == index[if j < p then j else j - 1];
      }
    }
  }

  /** Changing the fields besides hash and id of one entry keeps every index invariant. */
  lemma UpdateKeeps(index: seq<Entry>, p: nat, e: Entry, counter: int, files: map<string, seq<Byte>>)
    requires p < |index| && e.hash == index[p].hash && e.id == index[p].id
    requires Sorted(index) && IdsBelow(index, counter) && IdsDistinct(index) && OnDisk(index, files)
    ensures Sorted(index[p := e]) && IdsBelow(index[p := e], counter)
    ensures IdsDistinct(index[p := e]) && OnDisk(index[p := e], files)
  {
  }

  /** Overwriting the entry just inserted is inserting the new one. */
  lemma InsertThenUpdate(index: seq<Entry>, p: nat, e: Entry, f: Entry)
    requires p <= |index|
    ensures InsertAt(index, p, e)[p := f] == InsertAt(index, p, f)
  {
    InsertAtContents(index, p, e);
    InsertAtContents(index, p, f);
  }

  /** One more page always holds one more entry. */
  lemma Room(n: nat, entrySize: nat, limit: nat, pageSize: nat)
    requires n * entrySize <= limit && entrySize <= pageSize
    ensures (n + 1) * entrySize <= limit + pageSize
  {
    assert (n + 1) * entrySize == n * entrySize + entrySize;
  }

  /**
   * The index's reservation after making room for entry n + 1: one more
   * page when it would not fit, None when that page is past CACHE_SIZE.
   */
  function Grow(n: nat, entrySize: nat, limit: nat, pageSize: nat): (r: Option<nat>)
    requires 0 < entrySize <= pageSize && n * entrySize <= limit <= CACHE_SIZE && limit % pageSize == 0
    ensures r.None? <==> (n + 1) * entrySize > limit && limit + pageSize > CACHE_SIZE
    ensures r.Some? ==> (n + 1) * entrySize <= r.value <= CACHE_SIZE && r.value % pageSize == 0
    ensures r.Some? ==> r.value == if (n + 1) * entrySize > limit then limit + pageSize else limit
  {
    if (n + 1) * entrySize <= limit then Some(limit)
    else if limit + pageSize > CACHE_SIZE then None
    else
      Room(n, entrySize, limit, pageSize);
      MulMod(1, pageSize);
      SumMultiple(limit, pageSize, pageSize);
      Some(limit + pageSize)
  }

  /** The slot holds a write in progress: `scas_cas_begin_write` refuses to open another. */
  predicate SlotBusy(slot: Entry) {
    slot.mem.Some? || slot.size != 0 || slot.fd != 0
  }

  class Store {
    /** `sysconf(_SC_PAGESIZE)`. */
    const pageSize: nat
    /** `sizeof(struct scas_cas_entry_t)`. */
    const entrySize: nat

    /** `cache != NULL`. */
    var initialized: bool
    var index: seq<Entry>
    var allocLimit: nat
    var counter: int
    /** The static slot `scas_cas_begin_write` fills. */
    var slot: Entry
    /** Regular files, by path. */
    var files: map<string, seq<Byte>>

    ghost predicate Valid()
      reads this
    {
      && 0 < entrySize <= pageSize
      && initialized
      && Sorted(index)
      && |index| * entrySize <= allocLimit <= CACHE_SIZE
      && allocLimit % pageSize == 0
      && 0 <= counter
      && IdsBelow(index, counter)
      && IdsDistinct(index)
      && OnDisk(index, files)
      && (slot.mem.Some? ==> Path(slot.hash) in files && files[Path(slot.hash)] == slot.mem.value)
    }

    /** One more entry fits neither the reservation nor one more page below CACHE_SIZE. */
    ghost predicate Full()
      reads this
    {
      (|index| + 1) * entrySize > allocLimit && allocLimit + pageSize > CACHE_SIZE
    }

    /** The process image before `scas_cas_cache_initialize`: zeroed globals. */
    constructor (pageSize: nat, entrySize: nat, files: map<string, seq<Byte>>)
      ensures this.pageSize == pageSize && this.entrySize == entrySize
      ensures !initialized && index == [] && allocLimit == 0 && counter == 0
      ensures slot == ZERO_ENTRY && this.files == files
    {
      this.pageSize := pageSize;
      this.entrySize := entrySize;
      initialized := false;
      index := [];
      allocLimit := 0;
      counter := 0;
      slot := ZERO_ENTRY;
      this.files := files;
    }

    /** `scas_cas_cache_initialize`: reserves the index once; later calls change nothing. */
    method Initialize()
      requires 0 < entrySize <= pageSize && 0 <= counter && slot == ZERO_ENTRY
      requires initialized ==> Valid()
      modifies this
      ensures Valid()
      ensures old(initialized) ==> index == old(index) && allocLimit == old(allocLimit)
      ensures !old(initialized) ==> index == [] && allocLimit == 0
      ensures counter == old(counter) && slot == old(slot) && files == old(files)
    {
      if initialized {
        return;
      }
      initialized := true;
      index := [];
      allocLimit := 0;
    }

    /** `scas_cas_contains`: whether the object's file exists. */
    method Contains(h: Hash) returns (r: bool)
      ensures r <==> Path(h) in files
    {
      var path := ObjectPath(h);
      r := path in files;
    }

    /**
     * `scas_cas_allocate_entry` as evidently intended: commits one more
     * page of the index when the next entry would not fit, inserts a fresh
     * entry for `h` at its sorted position, and stamps it with the counter.
     * A fingerprint already indexed, or a page past the reservation (a
     * failing `mprotect`), is an assertion failure.
     */
    method AllocateEntry(h: Hash) returns (r: Status<nat>)
      requires Valid() && Path(h) in files
      modifies this
      ensures slot == old(slot) && files == old(files) && initialized
      ensures r.Abort? <==> Indexed(old(index), h) || old(Full())
      ensures r.Ok? ==> Valid()
      ensures r.Ok? ==> Destination(old(index), h) == Some(r.value)
      ensures r.Ok? ==> index == InsertAt(old(index), r.value, Entry(h, None, 0, 0, old(counter), 0))
      ensures r.Ok? ==> counter == old(counter) + 1
      ensures r.Ok? ==> allocLimit == if (|old(index)| + 1) * entrySize > old(allocLimit) then old(allocLimit) + pageSize else old(allocLimit)
    {
      var grown := Grow(|index|, entrySize, allocLimit, pageSize);
      assert grown.None? <==> Full();
      if grown.None? {
        return Abort("result == 0");
      }
      var limit := grown.value;
      var dest := Destination(index, h);
      if dest.None? {
        return Abort("Uh, if these hashes are equal then something bad has happened.");
      }
      var p := dest.value;
      var e := Entry(h, None, 0, 0, counter, 0);
      InsertFresh(index, p, e, counter, files);
      InsertAtSorted(index, p, e);
      index, counter, allocLimit := InsertAt(index, p, e), counter + 1, limit;
      r := Ok(p);
    }

    /**
     * `scas_cas_read_acquire` with `scas_cas_allocate_entry` as evidently
     * intended.  A hit takes one more reference; a miss opens and maps the
     * object's file and indexes it with one reference.  `enfileRetries`
     * is how many times `open` fails with `ENFILE` first (each retry starts
     * over), and `open` is what it answers after that.
     */
    method ReadAcquire(h: Hash, enfileRetries: nat, open: OpenResult) returns (r: Status<Option<nat>>)
      requires Valid()
      modifies this
      decreases enfileRetries
      ensures slot == old(slot) && files == old(files) && initialized
      ensures Indexed(old(index), h) ==>
                r.Ok? && r.value.Some? && r.value.value < |old(index)|
                && index == old(index)[r.value.value := old(index)[r.value.value].(refCount := old(index)[r.value.value].refCount + 1)]
                && index[r.value.value].hash == h
                && counter == old(counter) && allocLimit == old(allocLimit)
      ensures !Indexed(old(index), h) && (Path(h) !in files || open.OpenRefused? || (open.Opened? && !open.statOk)) ==>
                r == Ok(None) && index == old(index) && counter == old(counter) && allocLimit == old(allocLimit)
      ensures !Indexed(old(index), h) && Path(h) in files && open.Opened? && open.statOk ==>
                (r.Abort? <==> old(Full()))
      ensures !Indexed(old(index), h) && Path(h) in files && open.Opened? && open.statOk && r.Ok? ==>
                r.value.Some? && r.value.value <= |old(index)|
                && index == InsertAt(old(index), r.value.value, Entry(h, Some(files[Path(h)]), open.fd, |files[Path(h)]|, old(counter), 1))
                && counter == old(counter) + 1
      ensures r.Ok? ==> Valid()
    {
      var found := CacheFind(index, h);
      if found.Some? {
        Retain(found.value);
        return Ok(Some(found.value));
      }
      var path := ObjectPath(h);
      if enfileRetries > 0 {
        r := ReadAcquire(h, enfileRetries - 1, open);
        return;
      }
      if path !in files || open.OpenRefused? {
        return Ok(None);
      }
      if !open.statOk {
        return Ok(None);
      }
      var a := Admit(h, open.fd);
      if a.Abort? {
        return Abort(a.reason);
      }
      r := Ok(Some(a.value));
    }

    /** The hit path of `scas_cas_read_acquire`: one more reference. */
    method Retain(p: nat)
      requires Valid() && p < |index|
      modifies this
      ensures Valid()
      ensures index == old(index)[p := old(index)[p].(refCount := old(index)[p].refCount + 1)]
      ensures counter == old(counter) && allocLimit == old(allocLimit) && slot == old(slot) && files == old(files)
    {
      UpdateKeeps(index, p, index[p].(refCount := index[p].refCount + 1), counter, files);
      index := index[p := index[p].(refCount := index[p].refCount + 1)];
    }

    /**
     * The miss path of `scas_cas_read_acquire` once the file is open: a new
     * entry mapping the whole file, holding one reference.
     */
    method Admit(h: Hash, fd: nat) returns (r: Status<nat>)
      requires Valid() && Path(h) in files
      modifies this
      ensures slot == old(slot) && files == old(files) && initialized
      ensures r.Abort? <==> Indexed(old(index), h) || old(Full())
      ensures r.Ok? ==> Valid() && counter == old(counter) + 1 && r.value <= |old(index)|
      ensures r.Ok? ==> index == InsertAt(old(index), r.value, Entry(h, Some(files[Path(h)]), fd, |files[Path(h)]|, old(counter), 1))
    {
      var contents := files[Path(h)];
      var a := AllocateEntry(h);
      if a.Abort? {
        return Abort(a.reason);
      }
      var p := a.value;
      UpdateKeeps(index, p, index[p].(mem := Some(contents), fd := fd, size := |contents|, refCount := index[p].refCount + 1), counter, files);
      index := index[p := index[p].(mem := Some(contents), fd := fd, size := |contents|, refCount := index[p].refCount + 1)];
      InsertThenUpdate(old(index), p, Entry(h, None, 0, 0, old(counter), 0), Entry(h, Some(contents), fd, |contents|, old(counter), 1));
      r := Ok(p);
    }

    /** `scas_cas_read_release`: drops one reference and nothing else. */
    method ReadRelease(p: nat)
      requires Valid() && p < |index|
      modifies this
      ensures Valid()
      ensures index == old(index)[p := old(index)[p].(refCount := old(index)[p].refCount - 1)]
      ensures counter == old(counter) && allocLimit == old(allocLimit) && slot == old(slot) && files == old(files)
    {
      UpdateKeeps(index, p, index[p].(refCount := index[p].refCount - 1), counter, files);
      index := index[p := index[p].(refCount := index[p].refCount - 1)];
    }

    /**
     * `scas_cas_begin_write` with the file created when missing: the slot
     * must be empty; the object's file is cut or extended to `size` bytes
     * and mapped writable into the slot.  `fd` is the descriptor `open`
     * returns (None when it fails, which the source asserts against).
     */
    method BeginWrite(h: Hash, size: nat, fd: Option<nat>) returns (r: Status<()>)
      requires Valid()
      modifies this
      ensures index == old(index) && counter == old(counter) && allocLimit == old(allocLimit)
      ensures r.Abort? <==> SlotBusy(old(slot)) || fd.None?
      ensures r.Ok? ==> Valid()
      ensures r.Ok? ==> files == old(files)[Path(h) := Truncate(if Path(h) in old(files) then old(files)[Path(h)] else [], size)]
      ensures r.Ok? ==> slot == old(slot).(hash := h, mem := Some(files[Path(h)]), fd := fd.value, size := size)
    {
      if slot.mem.Some? {
        return Abort("entry.mem == NULL");
      }
      if slot.size != 0 {
        return Abort("entry.size == 0");
      }
      if slot.fd != 0 {
        return Abort("entry.fd == 0");
      }
      var path := ObjectPath(h);
      if fd.None? {
        return Abort("fd >= 0");
      }
      var existing := if path in files then files[path] else [];
      var contents := Truncate(existing, size);
      files := files[path := contents];
      slot := slot.(hash := h, mem := Some(contents), fd := fd.value, size := size);
      r := Ok(());
    }

    /**
     * Stores bytes through the slot's shared mapping: the object's file
     * sees them too.
     */
    method WriteSlot(offset: nat, data: seq<Byte>)
      requires Valid() && slot.mem.Some? && offset + |data| <= |slot.mem.value|
      modifies this
      ensures Valid()
      ensures slot == old(slot).(mem := Some(old(slot).mem.value[..offset] + data + old(slot).mem.value[offset + |data|..]))
      ensures files == old(files)[Path(slot.hash) := slot.mem.value]
      ensures index == old(index) && counter == old(counter) && allocLimit == old(allocLimit)
    {
      var mem := slot.mem.value[..offset] + data + slot.mem.value[offset + |data|..];
      slot := slot.(mem := Some(mem));
      files := files[Path(slot.hash) := mem];
    }

    /**
     * `scas_cas_end_write`: publishes the slot into the index (hash, mapping,
     * descriptor and size, with a fresh id) and zeroes the slot, so the next
     * `BeginWrite` is allowed.  The new entry starts with no references;
     * the code as written keeps the displaced entry's count
     * (`AsWrittenPublished`).
     */
    method EndWrite() returns (r: Status<nat>)
      requires Valid() && slot.mem.Some?
      modifies this
      ensures files == old(files)
      ensures r.Abort? <==> Indexed(old(index), old(slot).hash) || old(Full())
      ensures r.Ok? ==> Valid() && slot == ZERO_ENTRY && counter == old(counter) + 1
      ensures r.Ok? ==> r.value <= |old(index)| && index == InsertAt(old(index), r.value, Entry(old(slot).hash, old(slot).mem, old(slot).fd, old(slot).size, old(counter), 0))
    {
      var written := slot;
      var a := AllocateEntry(written.hash);
      if a.Abort? {
        return Abort(a.reason);
      }
      var p := a.value;
      UpdateKeeps(index, p, index[p].(hash := written.hash, mem := written.mem, fd := written.fd, size := written.size), counter, files);
      index := index[p := index[p].(hash := written.hash, mem := written.mem, fd := written.fd, size := written.size)];
      assert index == InsertAt(old(index), p, Entry(written.hash, written.mem, written.fd, written.size, old(counter), 0)) by {
        InsertAtContents(old(index), p, Entry(written.hash, None, 0, 0, old(counter), 0));
        InsertAtContents(old(index), p, Entry(written.hash, written.mem, written.fd, written.size, old(counter), 0));
      }
      slot := ZERO_ENTRY;
      r := Ok(p);
    }
  }

  // ----- the code as written -----

  /**
   * The entry the miss path of `scas_cas_read_acquire` leaves at the
   * insertion point as written: `scas_cas_allocate_entry` stamps only the id
   * and the caller only the mapping, descriptor, size and one more
   * reference, so the fingerprint and the count are whatever the slot held.
   */
  function AsWrittenMissEntry(stale: Entry, mem: seq<Byte>, fd: nat, id: int): (e: Entry)
    ensures e.hash == stale.hash && e.refCount == stale.refCount + 1
  {
    stale.(mem := Some(mem), fd := fd, size := |mem|, id := id, refCount := stale.refCount + 1)
  }

  /**
   * The entry `scas_cas_end_write` publishes as written:
   * `scas_cas_allocate_entry` stamps only the id and `end_write` copies
   * the fingerprint, mapping, descriptor and size, so the reference count
   * is whatever the slot held.
   */
  function AsWrittenPublished(stale: Entry, written: Entry, id: int): (e: Entry)
    ensures e.hash == written.hash && e.mem == written.mem && e.fd == written.fd && e.size == written.size
    ensures e.id == id && e.refCount == stale.refCount
  {
    Entry(written.hash, written.mem, written.fd, written.size, id, stale.refCount)
  }

  /**
   * Once `memmove(entry + 1, entry, …)` has opened the gap, the bytes at
   * the insertion point are still those of the entry displaced from it.
   * Inserting in front of an entry that holds references, as written, the
   * published object therefore starts with references nobody took, and the
   * miss path of `read_acquire` hands out one more than it took.
   */
  lemma AsWrittenCountInherited(index: seq<Entry>, p: nat, written: Entry, mem: seq<Byte>, fd: nat, id: int)
    requires p < |index| && index[p].refCount > 0
    ensures AsWrittenPublished(index[p], written, id).refCount == index[p].refCount > 0
    ensures AsWrittenMissEntry(index[p], mem, fd, id).refCount == index[p].refCount + 1 > 1
  {
  }

  /**
   * Into an empty index the shift as written leaves the zero page at
   * `cache_end`: the new entry carries the zero fingerprint, and the object
   * just mapped cannot be found again.
   */
  lemma AsWrittenMissEntryUnfindable(h: Hash, mem: seq<Byte>, fd: nat)
    requires h != ZERO_HASH
    ensures AsWrittenShift([], 0, ZERO_ENTRY) == [ZERO_ENTRY]
    ensures !Indexed([AsWrittenMissEntry(ZERO_ENTRY, mem, fd, 0)], h)
  {
  }

  /**
   * `open(filename, O_RDWR)` in `scas_cas_begin_write` as written: without
   * `O_CREAT` a file that does not exist yet is `ENOENT`, which the
   * following `assert(fd >= 0)` makes fatal.
   */
  function AsWrittenOpenForWrite(files: map<string, seq<Byte>>, path: string, fd: Option<nat>): (r: Status<nat>)
    ensures r.Ok? ==> path in files
  {
    if path !in files || fd.None? then Abort("fd >= 0") else Ok(fd.value)
  }

  /**
   * Every object the push walk writes is one the store does not hold, so
   * as written each `scas_cas_begin_write` of the walk aborts.
   */
  lemma AsWrittenBeginWriteAborts(files: map<string, seq<Byte>>, h: Hash, fd: Option<nat>)
    requires Path(h) !in files
    ensures AsWrittenOpenForWrite(files, Path(h), fd).Abort?
  {
  }
}
