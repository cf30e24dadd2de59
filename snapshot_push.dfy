/**
 * The SNAPSHOT_PUSH handler of server/scas_connection.c: the connection
 * reads the root meta of a snapshot, then walks the directory tree it
 * names, depth first, asking the client (DATA_FETCH) for every directory
 * object the store lacks, reading it into the store's write slot and
 * scanning its entries.  The walk is resumable: it yields whenever a
 * transfer would block and picks up in the saved state on the next call.
 *
 * File contents are never fetched: the source stops at that point, so the
 * walk ends `Unfinished` there.
 */
module SnapshotPush {
  import opened Wrappers
  import opened Arithmetic
  import opened Hash
  import opened Packet
  import opened Meta
  import opened LinearAllocator
  import opened CasIndex
  import opened Cas
  import opened Connection

  /** How a call into the handler ends. */
  datatype Outcome =
    | Return(code: int)          // the function returns this value
    | Unfinished(marker: string) // control reaches a region the source leaves unwritten
    | Fatal(reason: string)      // an assertion fails, or the code dereferences memory it must not
    | OutOfFuel                  // the walk was cut off after the given number of steps

  /**
   * What the process and the file system answer, fixed per run: the page
   * size, the payload size a push header announces, what `open` of an
   * object's file answers for reading and what it answers when creating it
   * for writing.
   */
  datatype Env = Env(pageSize: nat, payloadSize: Header -> nat, open: Hash -> OpenResult, create: Hash -> Option<nat>)

  predicate ValidEnv(env: Env) {
    IsPowerOfTwo(env.pageSize) && 24 < env.pageSize < SIZE_T_LIMIT
  }

  // ----- the DATA_FETCH request -----

  /** The fields of `context->fetch_packet` the walk sets: a DATA_FETCH header and the fingerprint. */
  function FetchPrefix(h: Hash): (s: seq<Byte>)
    ensures |s| == HEADER_SIZE + HASH_SIZE
  {
    EncodeHeader(Header(HEADER_SIZE + HASH_SIZE, CMD_DATA_FETCH)) + h
  }

  /** The packet after those fields are set; its 4 bytes of tail padding keep what they held. */
  function FillFetchPacket(packet: seq<Byte>, h: Hash): (p: seq<Byte>)
    requires |packet| == FETCH_PACKET_SIZE
    ensures |p| == FETCH_PACKET_SIZE
  {
    FetchPrefix(h) + packet[HEADER_SIZE + HASH_SIZE..]
  }

  /** The client reading the packet sees a DATA_FETCH of 36 bytes for `h`. */
  lemma FetchPacketAsks(packet: seq<Byte>, h: Hash)
    requires |packet| == FETCH_PACKET_SIZE
    ensures DecodeHeader(FillFetchPacket(packet, h)[..HEADER_SIZE]) == Header(HEADER_SIZE + HASH_SIZE, CMD_DATA_FETCH)
    ensures FillFetchPacket(packet, h)[HEADER_SIZE..HEADER_SIZE + HASH_SIZE] == h
  {
    var p := FillFetchPacket(packet, h);
    var hd := Header(HEADER_SIZE + HASH_SIZE, CMD_DATA_FETCH);
    assert Pow256(4) > 3 by { assert Pow256(1) == 256; }
    assert Pow256(8) > 36 by { assert Pow256(1) == 256; }
    assert ValidHeader(hd);
    assert p[..HEADER_SIZE] == EncodeHeader(hd);
    HeaderRoundTrip(hd);
  }

  // ----- the walk's state -----

  /** Where one state's block sends control. */
  datatype Next = Goto(state: WalkState) | UpOneLevel | Yield | Stop(outcome: Outcome)

  /** What holds throughout the walk. */
  ghost predicate Walking(conn: Connection, store: Store)
    reads conn, conn.context, store
  {
    && store.Valid() && |conn.header| == HEADER_SIZE
    && conn.context != null && conn.allocator != null && conn.context.Valid()
    && 0 <= conn.context.depth < STACK_DEPTH
  }

  /** The transfer a state resumes is in flight and fits its buffer. */
  ghost predicate Resumable(conn: Connection, store: Store, state: WalkState)
    reads conn, conn.context, store
  {
    match state
    case FetchingDirectory => conn.Fits(store) && (conn.ptr.NoTarget? || conn.ptr.FetchPacket?)
    case ReadingDirectoryHeader => conn.Fits(store) && conn.ptr.PushHeader?
    case ReadingDirectory => conn.Fits(store) && conn.ptr.SlotMem?
    case _ => true
  }

  /** A state the walk can be entered in: the first, or one it yields in. */
  predicate Saved(state: WalkState) {
    state.Initial? || state.FetchingDirectory? || state.ReadingDirectoryHeader? || state.ReadingDirectory?
  }

  /** Between calls: a push either not begun or paused in a saved state. */
  ghost predicate Ready(conn: Connection, store: Store)
    reads conn, conn.context, store
  {
    && conn.Fits(store) && store.Valid()
    && (conn.context != null ==>
          && conn.allocator != null && 0 <= conn.context.depth < STACK_DEPTH
          && (!conn.context.haveRoot ==> conn.ptr.RootMeta? && conn.context.state.Initial?)
          && Saved(conn.context.state) && Resumable(conn, store, conn.context.state))
  }

  /** The directory object the index maps for `h`. */
  ghost predicate Maps(index: seq<Entry>, h: Hash, blob: seq<Byte>) {
    exists p :: 0 <= p < |index| && index[p].hash == h && index[p].mem == Some(blob)
  }

  // ----- reading a directory object -----

  /** What scanning entries `i` up to `n` of a directory object finds. */
  datatype Survey = Missing(index: nat, meta: FileMeta) | AllPresent | PastMapping(index: nat)

  /**
   * The scan of ITERATING_OVER_DIRECTORY: the first entry whose content
   * the store lacks; an entry whose meta lies past the end of the object
   * cannot be read.
   */
  function SurveyFrom(blob: seq<Byte>, files: map<string, seq<Byte>>, i: nat, n: nat): (r: Survey)
    decreases n - i
    ensures r.Missing? ==>
              && i <= r.index < n && MetaOffset(r.index) + FILE_META_SIZE <= |blob|
              && r.meta == MetaAt(blob, r.index) && Path(r.meta.content) !in files
    ensures r.PastMapping? ==> i <= r.index < n && MetaOffset(r.index) + FILE_META_SIZE > |blob|
    ensures r.Missing? || r.PastMapping? ==>
              forall k :: i <= k < r.index ==> MetaOffset(k) + FILE_META_SIZE <= |blob| && Path(MetaAt(blob, k).content) in files
    ensures r.AllPresent? ==>
              forall k :: i <= k < n ==> MetaOffset(k) + FILE_META_SIZE <= |blob| && Path(MetaAt(blob, k).content) in files
  {
    if i >= n then AllPresent
    else if MetaOffset(i) + FILE_META_SIZE > |blob| then PastMapping(i)
    else if Path(MetaAt(blob, i).content) in files then SurveyFrom(blob, files, i + 1, n)
    else Missing(i, MetaAt(blob, i))
  }

  /** The scan loop of ITERATING_OVER_DIRECTORY. */
  method ScanEntries(store: Store, blob: seq<Byte>, from: nat, n: nat) returns (r: Survey)
    ensures r == SurveyFrom(blob, store.files, from, n)
  {
    var i := from;
    while i < n
      invariant from <= i || n <= from
      invariant SurveyFrom(blob, store.files, from, n) == SurveyFrom(blob, store.files, i, n)
      decreases n - i
    {
      if MetaOffset(i) + FILE_META_SIZE > |blob| {
        return PastMapping(i);
      }
      var meta := MetaAt(blob, i);
      var present := store.Contains(meta.content);
      if !present {
        return Missing(i, meta);
      }
      i := i + 1;
    }
    return AllPresent;
  }

  /**
   * Whether `scas_cas_read` of `h` yields an entry with a mapping: an
   * indexed object whose entry is mapped, or one the store can open,
   * `fstat` and index.
   */
  ghost predicate Readable(store: Store, h: Hash, open: OpenResult)
    reads store
  {
    if Indexed(store.index, h) then exists p :: 0 <= p < |store.index| && store.index[p].hash == h && store.index[p].mem.Some?
    else Path(h) in store.files && open.Opened? && open.statOk && !store.Full()
  }

  /**
   * What a read of `h` maps: the mapping an indexed entry already has, or
   * else the object's file.
   */
  ghost predicate Fetched(index: seq<Entry>, files: map<string, seq<Byte>>, h: Hash, blob: seq<Byte>) {
    if Indexed(index, h) then Maps(index, h, blob) else Path(h) in files && blob == files[Path(h)]
  }

  /**
   * `scas_cas_read` of a directory object and the dereference of its
   * entry and mapping: the object must be in the store.
   */
  method AcquireDirectory(store: Store, h: Hash, open: OpenResult) returns (r: Status<seq<Byte>>)
    requires store.Valid()
    modifies store
    ensures r.Ok? <==> old(Readable(store, h, open))
    ensures r.Ok? ==> store.Valid() && Maps(store.index, h, r.value)
    ensures r.Ok? ==> Fetched(old(store.index), store.files, h, r.value)
    ensures Path(h) !in old(store.files) ==> r.Abort?
    ensures store.files == old(store.files) && store.slot == old(store.slot)
  {
    var acquired := store.ReadAcquire(h, 0, open);
    if acquired.Abort? {
      return Abort(acquired.reason);
    }
    if acquired.value.None? {
      return Abort("cas_entry != NULL");
    }
    var entry := store.index[acquired.value.value];
    if entry.mem.None? {
      ghost var q := acquired.value.value;
      forall p | 0 <= p < |old(store.index)| && old(store.index)[p].hash == h
        ensures old(store.index)[p].mem.None?
      {
        SortedUnique(old(store.index), p, q);
      }
      return Abort("cas_entry->mem != NULL");
    }
    r := Ok(entry.mem.value);
  }

  /**
   * The scan of ITERATING_OVER_DIRECTORY: the current directory's object,
   * read through the store, surveyed from the frame's position.  An entry
   * past the mapping is an assertion failure.
   */
  method ScanDirectory(store: Store, h: Hash, from: nat, n: nat, open: OpenResult) returns (r: Status<Survey>, ghost blob: seq<Byte>)
    requires store.Valid()
    modifies store
    ensures r.Ok? ==> store.Valid() && Maps(store.index, h, blob)
    ensures r.Ok? ==> r.value == SurveyFrom(blob, store.files, from, n) && !r.value.PastMapping?
    ensures !old(Readable(store, h, open)) ==> r.Abort?
    ensures old(Readable(store, h, open)) ==>
              && store.Valid() && Maps(store.index, h, blob)
              && Fetched(old(store.index), store.files, h, blob)
              && (r.Abort? <==> SurveyFrom(blob, store.files, from, n).PastMapping?)
    ensures store.files == old(store.files) && store.slot == old(store.slot)
  {
    blob := [];
    var acquired := AcquireDirectory(store, h, open);
    if acquired.Abort? {
      return Abort(acquired.reason), blob;
    }
    var mem := acquired.value;
    blob := mem;
    var survey := ScanEntries(store, mem, from, n);
    if survey.PastMapping? {
      return Abort("meta[i] inside the mapping"), blob;
    }
    r := Ok(survey);
  }

  /**
   * `scas_get_parent`: the parent fingerprint stored in the directory
   * object of `h`, read through the store (which takes a reference).
   */
  method GetParent(store: Store, h: Hash, open: OpenResult) returns (r: Status<Hash>, ghost blob: seq<Byte>)
    requires store.Valid()
    modifies store
    ensures r.Ok? ==> store.Valid() && Maps(store.index, h, blob) && |blob| >= DIR_META_SIZE && r.value == Parent(blob)
    ensures !old(Readable(store, h, open)) ==> r.Abort?
    ensures old(Readable(store, h, open)) ==>
              && store.Valid() && Maps(store.index, h, blob)
              && Fetched(old(store.index), store.files, h, blob)
              && (r.Abort? <==> |blob| < DIR_META_SIZE)
    ensures Path(h) !in old(store.files) ==> r.Abort?
    ensures store.files == old(store.files) && store.slot == old(store.slot)
  {
    blob := [];
    var acquired := AcquireDirectory(store, h, open);
    if acquired.Abort? {
      return Abort(acquired.reason), blob;
    }
    var mem := acquired.value;
    blob := mem;
    if |mem| < DIR_META_SIZE {
      return Abort("meta->parent inside the mapping"), blob;
    }
    r := Ok(Parent(mem));
  }

  // ----- the states -----

  /**
   * INITIAL: a directory the store already has needs no walk; otherwise
   * the fetch begins, with no transfer in flight (so that FETCHING_DIRECTORY
   * fills in the request).
   */
  method StepInitial(conn: Connection, store: Store) returns (next: Next)
    requires Walking(conn, store)
    modifies conn
    ensures Walking(conn, store)
    ensures next == if Path(conn.context.currentDirRecord) in store.files then UpOneLevel else Goto(FetchingDirectory)
    ensures next.Goto? ==> conn.ptr == NoTarget && conn.offset == 0 && conn.size == 0 && Resumable(conn, store, FetchingDirectory)
    ensures next.UpOneLevel? ==> conn.ptr == old(conn.ptr) && conn.offset == old(conn.offset) && conn.size == old(conn.size)
    ensures conn.context == old(conn.context) && conn.allocator == old(conn.allocator)
    ensures conn.header == old(conn.header) && conn.state == old(conn.state)
  {
    var present := store.Contains(conn.context.currentDirRecord);
    if present {
      return UpOneLevel;
    }
    conn.Point(NoTarget, 0);
    return Goto(FetchingDirectory);
  }

  /**
   * FETCHING_DIRECTORY, first half: with no transfer in flight the
   * DATA_FETCH request for the current directory is filled in and becomes
   * the transfer.
   */
  method PrepareFetch(conn: Connection, store: Store)
    requires Walking(conn, store) && Resumable(conn, store, FetchingDirectory)
    modifies conn, conn.context
    ensures Walking(conn, store) && Resumable(conn, store, FetchingDirectory) && conn.ptr.FetchPacket?
    ensures conn.context.fetchPacket == old(Request(conn)) && conn.offset == old(RequestOffset(conn)) && conn.size == FETCH_PACKET_SIZE
    ensures conn.context == old(conn.context) && conn.allocator == old(conn.allocator)
    ensures conn.header == old(conn.header) && conn.state == old(conn.state)
    ensures old(conn.ptr).NoTarget? ==>
              conn.context.fetchPacket == FillFetchPacket(old(conn.context.fetchPacket), conn.context.currentDirRecord)
              && conn.offset == 0 && conn.size == FETCH_PACKET_SIZE
    ensures !old(conn.ptr).NoTarget? ==>
              conn.context.fetchPacket == old(conn.context.fetchPacket) && conn.offset == old(conn.offset) && conn.size == old(conn.size)
    ensures conn.context.currentDirRecord == old(conn.context.currentDirRecord) && conn.context.depth == old(conn.context.depth)
    ensures conn.context.pushHeader == old(conn.context.pushHeader) && conn.context.snapshotMeta == old(conn.context.snapshotMeta)
    ensures conn.context.haveRoot == old(conn.context.haveRoot) && conn.context.hasCasEntry == old(conn.context.hasCasEntry)
    ensures conn.context.state == old(conn.context.state) && conn.context.stack == old(conn.context.stack)
  {
    var context := conn.context;
    if conn.ptr.NoTarget? {
      context.fetchPacket := FillFetchPacket(context.fetchPacket, context.currentDirRecord);
      conn.Point(FetchPacket, FETCH_PACKET_SIZE);
    }
  }

  /** Where the request's write resumes: at its start when no transfer is in flight. */
  function RequestOffset(conn: Connection): nat
    reads conn
  {
    if conn.ptr.NoTarget? then 0 else conn.offset
  }

  /** The request FETCHING_DIRECTORY sends: filled in afresh when no transfer is in flight. */
  function Request(conn: Connection): (p: seq<Byte>)
    requires conn.context != null && |conn.context.fetchPacket| == FETCH_PACKET_SIZE
    reads conn, conn.context
    ensures |p| == FETCH_PACKET_SIZE
  {
    if conn.ptr.NoTarget? then FillFetchPacket(conn.context.fetchPacket, conn.context.currentDirRecord) else conn.context.fetchPacket
  }

  /**
   * FETCHING_DIRECTORY: sends what the socket takes of the request.  Once
   * all of it is out, the transfer becomes the reply's header.
   */
  method StepFetchingDirectory(conn: Connection, sock: Socket, store: Store) returns (next: Next)
    requires Walking(conn, store) && Resumable(conn, store, FetchingDirectory)
    modifies conn, conn.context, sock
    ensures Walking(conn, store)
    ensures next.Stop? || next == Yield || next == Goto(ReadingDirectoryHeader)
    ensures next.Stop? ==> next.outcome.Fatal?
    ensures var t := old(Transfer(RequestOffset(conn), FETCH_PACKET_SIZE, sock.WriteAnswer(Request(conn)[RequestOffset(conn)..])));
            && (next.Stop? <==> t.Abort?)
            && (next == Yield <==> t.Ok? && t.value.1 != 0)
            && (next == Yield ==> conn.offset == t.value.0)
    ensures conn.context == old(conn.context) && conn.allocator == old(conn.allocator)
    ensures conn.header == old(conn.header) && conn.state == old(conn.state)
    ensures conn.context.fetchPacket == if old(conn.ptr).NoTarget? then FillFetchPacket(old(conn.context.fetchPacket), conn.context.currentDirRecord) else old(conn.context.fetchPacket)
    ensures next == Yield ==>
              var start := if old(conn.ptr).NoTarget? then 0 else old(conn.offset);
              && Resumable(conn, store, FetchingDirectory) && conn.ptr.FetchPacket? && start <= conn.offset
              && sock.sent == old(sock.sent) + conn.context.fetchPacket[start..conn.offset]
    ensures next.Goto? ==>
              var start := if old(conn.ptr).NoTarget? then 0 else old(conn.offset);
              && start <= FETCH_PACKET_SIZE && sock.sent == old(sock.sent) + conn.context.fetchPacket[start..]
              && conn.ptr == PushHeader && conn.offset == 0 && conn.size == HEADER_SIZE
              && Resumable(conn, store, ReadingDirectoryHeader)
    ensures conn.context.currentDirRecord == old(conn.context.currentDirRecord) && conn.context.depth == old(conn.context.depth)
    ensures conn.context.pushHeader == old(conn.context.pushHeader) && conn.context.snapshotMeta == old(conn.context.snapshotMeta)
    ensures conn.context.haveRoot == old(conn.context.haveRoot) && conn.context.hasCasEntry == old(conn.context.hasCasEntry)
    ensures conn.context.state == old(conn.context.state) && conn.context.stack == old(conn.context.stack)
    ensures sock.incoming == old(sock.incoming)
  {
    ghost var request := Request(conn);
    ghost var start := RequestOffset(conn);
    PrepareFetch(conn, store);
    assert conn.context.fetchPacket[conn.offset..conn.size] == request[start..];
    var rc := SendRequest(conn, sock, store);
    if rc.Abort? {
      return Stop(Outcome.Fatal(rc.reason));
    }
    if rc.value != 0 {
      return Yield;
    }
    conn.Point(PushHeader, HEADER_SIZE);
    return Goto(ReadingDirectoryHeader);
  }

  /** The write of FETCHING_DIRECTORY: the next part of the request goes out. */
  method SendRequest(conn: Connection, sock: Socket, store: Store) returns (rc: Status<int>)
    requires Walking(conn, store) && conn.Fits(store) && conn.ptr.FetchPacket?
    modifies conn, sock
    ensures Walking(conn, store) && conn.Fits(store) && conn.ptr.FetchPacket?
    ensures conn.context == old(conn.context) && conn.allocator == old(conn.allocator)
    ensures conn.header == old(conn.header) && conn.state == old(conn.state) && conn.size == old(conn.size)
    ensures var t := Transfer(old(conn.offset), old(conn.size), old(sock.WriteAnswer(conn.context.fetchPacket[conn.offset..conn.size])));
            && (rc.Abort? <==> t.Abort?)
            && (t.Ok? ==> rc == Ok(t.value.1) && conn.offset == t.value.0)
    ensures rc.Ok? ==> old(conn.offset) <= conn.offset && sock.sent == old(sock.sent) + conn.context.fetchPacket[old(conn.offset)..conn.offset]
    ensures rc.Ok? && rc.value == 0 ==> conn.offset == FETCH_PACKET_SIZE
    ensures sock.incoming == old(sock.incoming)
  {
    ghost var packet := conn.context.fetchPacket;
    ghost var start := conn.offset;
    assert conn.Buffer(store) == packet;
    ghost var answer := sock.WriteAnswer(packet[start..conn.size]);
    rc := conn.Write(sock, store);
    if rc.Abort? {
      return;
    }
    assert conn.Buffer(store) == packet;
    assert sock.sent == old(sock.sent) + packet[start..conn.offset];
  }

  /**
   * READING_DIRECTORY_HEADER, second half: opens the write slot for the
   * current directory, sized as the header announces, and makes the
   * transfer the slot's mapping.
   */
  method OpenDirectorySlot(conn: Connection, store: Store, env: Env) returns (next: Next)
    requires Walking(conn, store) && Resumable(conn, store, ReadingDirectoryHeader)
    modifies conn, conn.context, store
    ensures next.Stop? || next == Goto(ReadingDirectory)
    ensures next.Stop? ==> next.outcome.Fatal?
    ensures next.Stop? <==> SlotBusy(old(store.slot)) || env.create(old(conn.context.currentDirRecord)).None?
    ensures conn.context == old(conn.context) && conn.allocator == old(conn.allocator)
    ensures conn.header == old(conn.header) && conn.state == old(conn.state)
    ensures conn.context.currentDirRecord == old(conn.context.currentDirRecord) && conn.context.depth == old(conn.context.depth)
    ensures conn.context.state == old(conn.context.state) && conn.context.stack == old(conn.context.stack)
    ensures conn.context.haveRoot == old(conn.context.haveRoot) && conn.context.pushHeader == old(conn.context.pushHeader)
    ensures next.Goto? ==>
              var h := conn.context.currentDirRecord;
              var size := env.payloadSize(DecodeHeader(conn.context.pushHeader));
              && Walking(conn, store) && Resumable(conn, store, ReadingDirectory)
              && env.create(h).Some? && conn.context.hasCasEntry
              && store.files == old(store.files)[Path(h) := Truncate(if Path(h) in old(store.files) then old(store.files)[Path(h)] else [], size)]
              && store.slot == old(store.slot).(hash := h, mem := Some(store.files[Path(h)]), fd := env.create(h).value, size := size)
              && store.index == old(store.index)
              && conn.ptr == SlotMem && conn.offset == 0 && conn.size == size
  {
    var context := conn.context;
    var h := context.currentDirRecord;
    var size := env.payloadSize(DecodeHeader(context.pushHeader));
    var begun := store.BeginWrite(h, size, env.create(h));
    if begun.Abort? {
      return Stop(Outcome.Fatal(begun.reason));
    }
    context.hasCasEntry := true;
    conn.Point(SlotMem, store.slot.size);
    return Goto(ReadingDirectory);
  }

  /**
   * READING_DIRECTORY_HEADER: reads the reply's header; once complete,
   * opens the write slot for the directory.
   */
  method StepReadingDirectoryHeader(conn: Connection, sock: Socket, store: Store, env: Env) returns (next: Next)
    requires Walking(conn, store) && Resumable(conn, store, ReadingDirectoryHeader)
    modifies conn, conn.context, sock, store
    ensures next.Stop? || next == Yield || next == Goto(ReadingDirectory)
    ensures next.Stop? ==> next.outcome.Fatal?
    ensures var t := Transfer(old(conn.offset), old(conn.size), old(sock.ReadAnswer(conn.size - conn.offset)).0);
            && (next == Yield <==> t.Ok? && t.value.1 != 0)
            && (next == Yield ==> conn.offset == t.value.0)
            && (next.Stop? <==> t.Abort? || (t.Ok? && t.value.1 == 0 && (SlotBusy(old(store.slot)) || env.create(old(conn.context.currentDirRecord)).None?)))
    ensures conn.context == old(conn.context) && conn.allocator == old(conn.allocator)
    ensures conn.header == old(conn.header) && conn.state == old(conn.state)
    ensures conn.context.currentDirRecord == old(conn.context.currentDirRecord) && conn.context.depth == old(conn.context.depth)
    ensures conn.context.state == old(conn.context.state) && conn.context.stack == old(conn.context.stack)
    ensures conn.context.haveRoot == old(conn.context.haveRoot)
    ensures !next.Stop? ==> conn.context.pushHeader == Place(old(conn.context.pushHeader), old(conn.offset), old(sock.ReadAnswer(conn.size - conn.offset)).1)
    ensures next == Yield ==>
              && Walking(conn, store) && Resumable(conn, store, ReadingDirectoryHeader)
              && store.files == old(store.files) && store.slot == old(store.slot) && store.index == old(store.index)
    ensures next.Goto? ==>
              var h := conn.context.currentDirRecord;
              var size := env.payloadSize(DecodeHeader(conn.context.pushHeader));
              && Walking(conn, store) && Resumable(conn, store, ReadingDirectory)
              && env.create(h).Some? && conn.context.hasCasEntry
              && store.files == old(store.files)[Path(h) := Truncate(if Path(h) in old(store.files) then old(store.files)[Path(h)] else [], size)]
              && store.slot == old(store.slot).(hash := h, mem := Some(store.files[Path(h)]), fd := env.create(h).value, size := size)
              && store.index == old(store.index)
              && conn.ptr == SlotMem && conn.offset == 0 && conn.size == size
  {
    ghost var answer := sock.ReadAnswer(conn.size - conn.offset);
    ghost var header := Place(conn.context.pushHeader, conn.offset, answer.1);
    var rc := conn.Read(sock, store);
    assert conn.context.pushHeader == header;
    if rc.Abort? {
      return Stop(Outcome.Fatal(rc.reason));
    }
    if rc.value != 0 {
      return Yield;
    }
    next := OpenDirectorySlot(conn, store, env);
  }

  /**
   * READING_DIRECTORY: reads the directory object into the slot; once
   * complete, records its entry count in the current stack frame and
   * publishes the slot into the store's index.
   */
  method StepReadingDirectory(conn: Connection, sock: Socket, store: Store) returns (next: Next, ghost blob: seq<Byte>)
    requires Walking(conn, store) && Resumable(conn, store, ReadingDirectory)
    modifies conn, conn.context, conn.context.stack, sock, store
    ensures next.Stop? || next == Yield || next == Goto(IteratingOverDirectory)
    ensures next.Stop? ==> next.outcome.Fatal?
    ensures var (r, data) := old(sock.ReadAnswer(conn.size - conn.offset));
            var t := Transfer(old(conn.offset), old(conn.size), r);
            && (next == Yield <==> t.Ok? && t.value.1 != 0)
            && (next == Yield ==> conn.offset == t.value.0)
            && (next.Stop? <==> t.Abort? || (t.Ok? && t.value.1 == 0 && (old(conn.size) < DIR_META_SIZE || Indexed(old(store.index), old(store.slot.hash)) || old(store.Full()))))
            && (next.Goto? ==> blob == Place(old(store.slot.mem.value), old(conn.offset), data))
    ensures conn.context == old(conn.context) && conn.allocator == old(conn.allocator)
    ensures conn.header == old(conn.header) && conn.state == old(conn.state)
    ensures conn.context.currentDirRecord == old(conn.context.currentDirRecord) && conn.context.depth == old(conn.context.depth)
    ensures conn.context.state == old(conn.context.state) && conn.context.stack == old(conn.context.stack)
    ensures conn.context.haveRoot == old(conn.context.haveRoot)
    ensures next == Yield ==>
              && Walking(conn, store) && Resumable(conn, store, ReadingDirectory)
              && store.index == old(store.index) && unchanged(conn.context.stack)
    ensures next.Goto? ==>
              && Walking(conn, store)
              && |blob| >= DIR_META_SIZE
              && Maps(store.index, old(store.slot).hash, blob)
              && store.slot == ZERO_ENTRY
              && conn.context.stack[conn.context.depth] == Frame(NumEntries(blob), 0, old(conn.context.stack[conn.context.depth]).visited)
              && forall k :: 0 <= k < STACK_DEPTH && k != conn.context.depth ==> conn.context.stack[k] == old(conn.context.stack[k])
  {
    var context := conn.context;
    blob := [];
    var rc := conn.Read(sock, store);
    if rc.Abort? {
      return Stop(Outcome.Fatal(rc.reason)), blob;
    }
    if rc.value != 0 {
      return Yield, blob;
    }
    var recorded;
    recorded, blob := RecordDirectory(context, store);
    if recorded.Abort? {
      return Stop(Outcome.Fatal(recorded.reason)), blob;
    }
    return Goto(IteratingOverDirectory), blob;
  }

  /**
   * READING_DIRECTORY once the object is in: the frame of the current
   * level restarts its scan over the object's entries, and the slot is
   * published to the index.
   */
  method RecordDirectory(context: PushContext, store: Store) returns (r: Status<()>, ghost blob: seq<Byte>)
    requires context.Valid() && 0 <= context.depth < STACK_DEPTH && store.Valid() && store.slot.mem.Some?
    modifies context.stack, store
    ensures blob == old(store.slot.mem.value)
    ensures r.Abort? <==> |blob| < DIR_META_SIZE || Indexed(old(store.index), old(store.slot.hash)) || old(store.Full())
    ensures r.Ok? ==>
              && store.Valid() && |blob| >= DIR_META_SIZE
              && Maps(store.index, old(store.slot).hash, blob)
              && store.slot == ZERO_ENTRY
              && context.stack[context.depth] == Frame(NumEntries(blob), 0, old(context.stack[context.depth]).visited)
              && forall k :: 0 <= k < STACK_DEPTH && k != context.depth ==> context.stack[k] == old(context.stack[k])
  {
    var mem := store.slot.mem.value;
    blob := mem;
    if |mem| < DIR_META_SIZE {
      return Abort("directory_entry->num_entries inside the mapping"), blob;
    }
    var depth := context.depth;
    context.stack[depth] := Frame(NumEntries(mem), 0, context.stack[depth].visited);
    ghost var h := store.slot.hash;
    var published := store.EndWrite();
    if published.Abort? {
      return Abort(published.reason), blob;
    }
    assert store.index[published.value].hash == h && store.index[published.value].mem == Some(blob);
    r := Ok(());
  }

  /**
   * ITERATING_OVER_DIRECTORY: reads the current directory object and
   * scans its entries from the frame's position.  The first entry the
   * store lacks that is a directory becomes the current directory, one
   * level deeper (a descent past the last frame is refused); one that is a
   * file needs FETCHING_FILE; when every entry is present the walk goes
   * up a level.
   */
  method StepIterating(conn: Connection, store: Store, env: Env) returns (next: Next, ghost blob: seq<Byte>)
    requires Walking(conn, store)
    modifies conn.context, store
    ensures next.Stop? || next == Goto(Initial) || next == UpOneLevel
    ensures next.Stop? ==> next.outcome.Fatal? || next.outcome == Unfinished("FETCHING_FILE")
    ensures conn.context.stack == old(conn.context.stack)
    ensures conn.context.state == old(conn.context.state) && conn.context.haveRoot == old(conn.context.haveRoot)
    ensures conn.context.snapshotMeta == old(conn.context.snapshotMeta) && conn.context.pushHeader == old(conn.context.pushHeader)
    ensures conn.context.fetchPacket == old(conn.context.fetchPacket) && conn.context.hasCasEntry == old(conn.context.hasCasEntry)
    ensures store.files == old(store.files) && store.slot == old(store.slot)
    ensures !old(Readable(store, conn.context.currentDirRecord, env.open(conn.context.currentDirRecord))) ==> next.Stop? && next.outcome.Fatal?
    ensures old(Readable(store, conn.context.currentDirRecord, env.open(conn.context.currentDirRecord))) ==>
              var h := old(conn.context.currentDirRecord);
              var frame := conn.context.stack[old(conn.context.depth)];
              var survey := SurveyFrom(blob, store.files, frame.currentIdx, frame.numEntries);
              && Maps(store.index, h, blob)
              && Fetched(old(store.index), store.files, h, blob)
              && (next.Stop? && next.outcome.Fatal? <==>
                    survey.PastMapping? || (survey.Missing? && IsDirectory(Flags(survey.meta)) && old(conn.context.depth) + 1 >= STACK_DEPTH))
    ensures !(next.Stop? && next.outcome.Fatal?) ==>
              var frame := conn.context.stack[old(conn.context.depth)];
              var survey := SurveyFrom(blob, store.files, frame.currentIdx, frame.numEntries);
              && Walking(conn, store)
              && Maps(store.index, old(conn.context.currentDirRecord), blob)
              && (next == UpOneLevel <==> survey.AllPresent?)
              && (next == Goto(Initial) <==> survey.Missing? && IsDirectory(Flags(survey.meta)))
              && (next == Goto(Initial) ==>
                    conn.context.depth == old(conn.context.depth) + 1 && conn.context.currentDirRecord == survey.meta.content)
              && (next == UpOneLevel ==>
                    conn.context.depth == old(conn.context.depth) && conn.context.currentDirRecord == old(conn.context.currentDirRecord))
  {
    var context := conn.context;
    var frame := context.stack[context.depth];
    var scanned;
    scanned, blob := ScanDirectory(store, context.currentDirRecord, frame.currentIdx, frame.numEntries, env.open(context.currentDirRecord));
    if scanned.Abort? {
      return Stop(Outcome.Fatal(scanned.reason)), blob;
    }
    next := FollowSurvey(context, scanned.value);
  }

  /**
   * The branch of ITERATING_OVER_DIRECTORY on what the scan found: up a
   * level when every entry is present, down into a missing directory,
   * and FETCHING_FILE for a missing file.
   */
  method FollowSurvey(context: PushContext, survey: Survey) returns (next: Next)
    requires context.Valid() && 0 <= context.depth < STACK_DEPTH && !survey.PastMapping?
    requires survey.Missing? ==> ValidFileMeta(survey.meta)
    modifies context
    ensures next == UpOneLevel <==> survey.AllPresent?
    ensures next == Goto(Initial) <==> survey.Missing? && IsDirectory(Flags(survey.meta)) && old(context.depth) + 1 < STACK_DEPTH
    ensures next == Stop(Outcome.Fatal("context->depth < 1024")) <==>
              survey.Missing? && IsDirectory(Flags(survey.meta)) && old(context.depth) + 1 >= STACK_DEPTH
    ensures next == Stop(Unfinished("FETCHING_FILE")) <==> survey.Missing? && !IsDirectory(Flags(survey.meta))
    ensures next == Goto(Initial) ==> context.depth == old(context.depth) + 1 && context.currentDirRecord == survey.meta.content
    ensures next != Goto(Initial) ==> context.depth == old(context.depth) && context.currentDirRecord == old(context.currentDirRecord)
    ensures context.Valid() && context.stack == old(context.stack)
    ensures context.state == old(context.state) && context.haveRoot == old(context.haveRoot)
    ensures context.snapshotMeta == old(context.snapshotMeta) && context.pushHeader == old(context.pushHeader)
    ensures context.fetchPacket == old(context.fetchPacket) && context.hasCasEntry == old(context.hasCasEntry)
  {
    match survey
    case AllPresent =>
      return UpOneLevel;
    case Missing(_, meta) =>
      if IsDirectory(Flags(meta)) {
        var descended := Descend(context, meta.content);
        if !descended {
          return Stop(Outcome.Fatal("context->depth < 1024"));
        }
        return Goto(Initial);
      }
      return Stop(Unfinished("FETCHING_FILE"));
  }

  /** The descent into a missing directory: one level deeper, if a frame is left. */
  method Descend(context: PushContext, child: Hash) returns (ok: bool)
    requires context.Valid() && 0 <= context.depth < STACK_DEPTH
    modifies context
    ensures ok <==> old(context.depth) + 1 < STACK_DEPTH
    ensures ok ==> context.depth == old(context.depth) + 1 && context.currentDirRecord == child
    ensures !ok ==> context.depth == old(context.depth) && context.currentDirRecord == old(context.currentDirRecord)
    ensures context.Valid() && context.stack == old(context.stack)
    ensures context.state == old(context.state) && context.haveRoot == old(context.haveRoot)
    ensures context.snapshotMeta == old(context.snapshotMeta) && context.pushHeader == old(context.pushHeader)
    ensures context.fetchPacket == old(context.fetchPacket) && context.hasCasEntry == old(context.hasCasEntry)
  {
    if context.depth + 1 >= STACK_DEPTH {
      return false;
    }
    context.depth := context.depth + 1;
    context.currentDirRecord := child;
    ok := true;
  }

  /**
   * `up_one_level`: the current directory is complete, so its parent
   * becomes current, one level up, and its scan resumes.  At the root the
   * push is complete: the connection is reset.
   */
  method StepUp(conn: Connection, store: Store, env: Env) returns (next: Next, ghost blob: seq<Byte>)
    requires Walking(conn, store)
    modifies conn, conn.context, conn.allocator, store
    ensures next.Stop? || next == Goto(IteratingOverDirectory)
    ensures next.Stop? ==> next.outcome.Fatal? || next.outcome == Return(0)
    ensures old(conn.context.depth) == 0 <==> next == Stop(Return(0))
    ensures next == Stop(Return(0)) ==>
              && conn.context == null && conn.allocator == null && conn.ptr == NoTarget && conn.size == 0 && conn.offset == 0
              && conn.header == seq(HEADER_SIZE, _ => 0) && conn.state == old(conn.state)
              && store.Valid() && conn.Fits(store)
              && !old(conn.allocator).mapped
    ensures old(conn.context.depth) != 0 ==>
              && conn.context == old(conn.context) && conn.allocator == old(conn.allocator)
              && (next.Goto? <==> old(Readable(store, conn.context.currentDirRecord, env.open(conn.context.currentDirRecord))) && |blob| >= DIR_META_SIZE)
              && (old(Readable(store, conn.context.currentDirRecord, env.open(conn.context.currentDirRecord))) ==>
                    Fetched(old(store.index), store.files, old(conn.context.currentDirRecord), blob))
    ensures next.Goto? ==>
              && Walking(conn, store) && conn.context == old(conn.context) && conn.allocator == old(conn.allocator)
              && conn.header == old(conn.header) && conn.state == old(conn.state)
              && conn.ptr == old(conn.ptr) && conn.offset == old(conn.offset) && conn.size == old(conn.size)
              && conn.context.depth == old(conn.context.depth) - 1
              && Maps(store.index, old(conn.context.currentDirRecord), blob) && |blob| >= DIR_META_SIZE
              && conn.context.currentDirRecord == Parent(blob)
    ensures store.files == old(store.files) && store.slot == old(store.slot)
    ensures old(conn.context).stack == old(conn.context.stack) && old(conn.context).state == old(conn.context.state)
    ensures old(conn.context).haveRoot == old(conn.context.haveRoot)
    ensures conn.state == old(conn.state)
  {
    var context := conn.context;
    blob := [];
    if context.depth == 0 {
      conn.Reset();
      return Stop(Return(0)), blob;
    }
    var up;
    up, blob := Ascend(context, store, env);
    if up.Abort? {
      return Stop(Outcome.Fatal(up.reason)), blob;
    }
    return Goto(IteratingOverDirectory), blob;
  }

  /** `up_one_level` below the root: the parent of the current directory becomes current. */
  method Ascend(context: PushContext, store: Store, env: Env) returns (r: Status<()>, ghost blob: seq<Byte>)
    requires context.Valid() && 0 < context.depth < STACK_DEPTH && store.Valid()
    modifies context, store
    ensures var h := old(context.currentDirRecord);
            && (r.Ok? <==> old(Readable(store, h, env.open(h))) && |blob| >= DIR_META_SIZE)
            && (old(Readable(store, h, env.open(h))) ==> store.Valid() && Fetched(old(store.index), store.files, h, blob))
    ensures r.Ok? ==>
              && store.Valid() && Maps(store.index, old(context.currentDirRecord), blob) && |blob| >= DIR_META_SIZE
              && context.currentDirRecord == Parent(blob) && context.depth == old(context.depth) - 1
    ensures context.Valid() && context.stack == old(context.stack) && context.state == old(context.state)
    ensures context.haveRoot == old(context.haveRoot)
    ensures store.files == old(store.files) && store.slot == old(store.slot)
  {
    var parent;
    parent, blob := GetParent(store, context.currentDirRecord, env.open(context.currentDirRecord));
    if parent.Abort? {
      return Abort(parent.reason), blob;
    }
    context.currentDirRecord := parent.value;
    context.depth := context.depth - 1;
    r := Ok(());
  }

  // ----- setting up, driving and entering the walk -----

  lemma DefaultSizesArePowersOfTwo()
    ensures IsPowerOfTwo(DEFAULT_ALLOCATOR_SIZE) && IsPowerOfTwo(8)
  {
    Double(1);
    Double(2);
    Double(4);
    Square(2);
    Square(4);
    Square(16);
    Square(256);
  }

  /**
   * The arena of a push: DEFAULT_ALLOCATOR_SIZE bytes, of which the
   * context takes the first allocation (it always fits).
   */
  method NewArena(env: Env) returns (allocator: Allocator)
    requires ValidEnv(env)
    ensures fresh(allocator) && allocator.Valid() && allocator.mapped && allocator.heapLimit == DEFAULT_ALLOCATOR_SIZE
    ensures allocator.ptr == allocator.HeaderSize() + PUSH_CONTEXT_SIZE
  {
    DefaultSizesArePowersOfTwo();
    SizeLimitIsPowerOfTwo();
    allocator := new Allocator.Create(DEFAULT_ALLOCATOR_SIZE, env.pageSize, 8);
    var place := allocator.Alloc(PUSH_CONTEXT_SIZE);
    if place.Abort? {
      assert false;
    }
    assert AlignUp(PUSH_CONTEXT_SIZE, 8) == PUSH_CONTEXT_SIZE;
  }

  /**
   * `scas_initialize_snapshot_push_context`: a connection that already has
   * a context keeps it; otherwise (its allocator must be NULL) a fresh
   * arena of DEFAULT_ALLOCATOR_SIZE bytes holds a zeroed context, and the
   * transfer becomes the root meta, read from its start.
   */
  method InitializeContext(conn: Connection, store: Store, env: Env) returns (r: Status<PushContext>)
    requires ValidEnv(env) && Ready(conn, store)
    modifies conn
    ensures old(conn.context) != null ==> r.Ok? && r.value == old(conn.context) && unchanged(conn)
    ensures old(conn.context) == null && old(conn.allocator) != null ==> r.Abort? && unchanged(conn)
    ensures old(conn.context) == null && old(conn.allocator) == null ==>
              && r.Ok? && r.value == conn.context && fresh(conn.context) && fresh(conn.context.stack)
              && conn.allocator != null && fresh(conn.allocator) && conn.allocator.Valid() && conn.allocator.mapped
              && conn.allocator.heapLimit == DEFAULT_ALLOCATOR_SIZE
              && conn.ptr == RootMeta && conn.offset == 0 && conn.size == FILE_META_SIZE
              && conn.header == old(conn.header) && conn.state == old(conn.state)
              && conn.context.snapshotMeta == seq(FILE_META_SIZE, _ => 0)
              && !conn.context.haveRoot && conn.context.depth == 0 && conn.context.state == Initial
              && conn.Fits(store)
    ensures r.Ok? ==> Ready(conn, store) && conn.context == r.value && conn.state == old(conn.state)
    ensures r.Ok? && old(AwaitsRoot(conn)) ==>
              && !conn.context.haveRoot && conn.offset == old(RootOffset(conn)) && conn.size == FILE_META_SIZE
              && conn.context.snapshotMeta == old(RootBuffer(conn))
  {
    if conn.context != null {
      return Ok(conn.context);
    }
    if conn.allocator != null {
      return Abort("connection->allocator == NULL");
    }
    var context := CreateContext(conn, store, env);
    r := Ok(context);
  }

  /** The creating half of `scas_initialize_snapshot_push_context`. */
  method CreateContext(conn: Connection, store: Store, env: Env) returns (context: PushContext)
    requires ValidEnv(env) && |conn.header| == HEADER_SIZE && store.Valid()
    modifies conn
    ensures conn.context == context && fresh(context) && fresh(context.stack)
    ensures conn.allocator != null && fresh(conn.allocator) && conn.allocator.Valid() && conn.allocator.mapped
    ensures conn.allocator.heapLimit == DEFAULT_ALLOCATOR_SIZE
    ensures conn.ptr == RootMeta && conn.offset == 0 && conn.size == FILE_META_SIZE
    ensures conn.header == old(conn.header) && conn.state == old(conn.state)
    ensures context.snapshotMeta == seq(FILE_META_SIZE, _ => 0)
    ensures !context.haveRoot && context.depth == 0 && context.state == Initial
    ensures conn.Fits(store) && Ready(conn, store)
  {
    var allocator := NewArena(env);
    context := new PushContext();
    conn.context := context;
    conn.allocator := allocator;
    conn.Point(RootMeta, FILE_META_SIZE);
    FreshContextReady(conn, store);
  }

  /** A connection whose new context waits for the root meta is ready. */
  lemma FreshContextReady(conn: Connection, store: Store)
    requires |conn.header| == HEADER_SIZE && store.Valid()
    requires conn.context != null && conn.context.Valid() && conn.allocator != null
    requires conn.ptr == RootMeta && conn.offset == 0 && conn.size == FILE_META_SIZE
    requires !conn.context.haveRoot && conn.context.depth == 0 && conn.context.state == Initial
    ensures conn.Fits(store) && Ready(conn, store)
  {
  }

  /** The walk between blocks: its state, and the transfer that state resumes, in place. */
  ghost predicate Between(conn: Connection, store: Store, context: PushContext, allocator: Allocator, state: WalkState)
    reads conn, conn.context, store
  {
    && conn.context == context && conn.allocator == allocator
    && Walking(conn, store) && context.haveRoot
    && Resumable(conn, store, state) && !state.FetchingFile?
  }

  /**
   * One block of the loop of `scas_snapshot_push_iterate`, with
   * `up_one_level` run where a block jumps to it.
   */
  method RunBlock(conn: Connection, sock: Socket, store: Store, env: Env, state: WalkState) returns (next: Next)
    requires Walking(conn, store) && conn.context.haveRoot && Resumable(conn, store, state) && !state.FetchingFile?
    modifies conn, conn.context, conn.context.stack, conn.allocator, sock, store
    ensures !next.UpOneLevel?
    ensures next.Goto? ==> Between(conn, store, old(conn.context), old(conn.allocator), next.state)
    ensures next.Yield? ==> Between(conn, store, old(conn.context), old(conn.allocator), state) && Saved(state) && conn.Fits(store)
    ensures next.Goto? || next.Yield? ==> conn.context.stack == old(conn.context.stack)
    ensures next == Stop(Return(0)) ==> conn.context == null && conn.allocator == null && conn.Fits(store) && store.Valid() && !old(conn.allocator).mapped
    ensures next.Stop? ==> next.outcome.Fatal? || next.outcome == Return(0) || next.outcome == Unfinished("FETCHING_FILE")
    ensures conn.state == old(conn.state)
  {
    if state.FetchingDirectory? || state.ReadingDirectoryHeader? || state.ReadingDirectory? {
      next := RunTransferBlock(conn, sock, store, env, state);
    } else {
      next := RunScanBlock(conn, store, env, state);
    }
  }

  /** The blocks that move bytes: the request, the reply's header and the directory object. */
  method RunTransferBlock(conn: Connection, sock: Socket, store: Store, env: Env, state: WalkState) returns (next: Next)
    requires Walking(conn, store) && conn.context.haveRoot && Resumable(conn, store, state)
    requires state.FetchingDirectory? || state.ReadingDirectoryHeader? || state.ReadingDirectory?
    modifies conn, conn.context, conn.context.stack, sock, store
    ensures !next.UpOneLevel?
    ensures next.Goto? ==> Between(conn, store, old(conn.context), old(conn.allocator), next.state)
    ensures next.Yield? ==> Between(conn, store, old(conn.context), old(conn.allocator), state) && Saved(state) && conn.Fits(store)
    ensures next.Goto? || next.Yield? ==> conn.context.stack == old(conn.context.stack)
    ensures next.Stop? ==> next.outcome.Fatal?
    ensures conn.state == old(conn.state)
  {
    ghost var blob: seq<Byte>;
    match state {
      case FetchingDirectory =>
        next := StepFetchingDirectory(conn, sock, store);
      case ReadingDirectoryHeader =>
        next := StepReadingDirectoryHeader(conn, sock, store, env);
      case ReadingDirectory =>
        next, blob := StepReadingDirectory(conn, sock, store);
    }
  }

  /** The blocks that look at the store: INITIAL and ITERATING_OVER_DIRECTORY, and `up_one_level`. */
  method RunScanBlock(conn: Connection, store: Store, env: Env, state: WalkState) returns (next: Next)
    requires Walking(conn, store) && conn.context.haveRoot && (state.Initial? || state.IteratingOverDirectory?)
    modifies conn, conn.context, conn.context.stack, conn.allocator, store
    ensures !next.UpOneLevel?
    ensures next.Goto? ==> Between(conn, store, old(conn.context), old(conn.allocator), next.state)
    ensures next.Yield? ==> Between(conn, store, old(conn.context), old(conn.allocator), state) && Saved(state) && conn.Fits(store)
    ensures next.Goto? || next.Yield? ==> conn.context.stack == old(conn.context.stack)
    ensures next == Stop(Return(0)) ==> conn.context == null && conn.allocator == null && conn.Fits(store) && store.Valid() && !old(conn.allocator).mapped
    ensures next.Stop? ==> next.outcome.Fatal? || next.outcome == Return(0) || next.outcome == Unfinished("FETCHING_FILE")
    ensures conn.state == old(conn.state)
  {
    ghost var blob: seq<Byte>;
    if state.Initial? {
      next := StepInitial(conn, store);
    } else {
      next, blob := StepIterating(conn, store, env);
    }
    if next.UpOneLevel? {
      next, blob := StepUp(conn, store, env);
    }
  }

  /**
   * `scas_snapshot_push_iterate`: runs the states from the saved one until
   * a transfer would block (the state is saved and the call returns 0),
   * the walk completes past the root (the connection is reset), or it
   * stops; `fuel` bounds the number of blocks run.
   */
  method Walk(conn: Connection, sock: Socket, store: Store, env: Env, fuel: nat) returns (out: Outcome)
    requires Walking(conn, store) && conn.context.haveRoot
    requires Saved(conn.context.state) && Resumable(conn, store, conn.context.state)
    modifies conn, conn.context, conn.context.stack, conn.allocator, sock, store
    ensures out.Return? ==> out.code == 0 && Ready(conn, store)
    ensures out.Return? && conn.context != null ==>
              conn.context == old(conn.context) && conn.allocator == old(conn.allocator) && conn.context.haveRoot
    ensures out.Return? && conn.context == null ==> conn.allocator == null && !old(conn.allocator).mapped
    ensures out.Unfinished? ==> out.marker == "FETCHING_FILE"
    ensures conn.state == old(conn.state)
  {
    var context := conn.context;
    ghost var allocator := conn.allocator;
    var state := context.state;
    var remaining := fuel;
    while remaining > 0
      invariant Between(conn, store, context, allocator, state) && context.stack == old(context.stack)
      invariant conn.state == old(conn.state)
      decreases remaining
    {
      remaining := remaining - 1;
      var next := RunBlock(conn, sock, store, env, state);
      match next {
        case Goto(s) =>
          state := s;
        case Yield =>
          context.state := state;
          return Return(0);
        case Stop(o) =>
          return o;
      }
    }
    return OutOfFuel;
  }

  /** What `scas_connection_reset` leaves: no transfer, no context, no allocator, a zeroed header. */
  ghost predicate WasReset(conn: Connection)
    reads conn
  {
    && conn.context == null && conn.allocator == null
    && conn.ptr == NoTarget && conn.size == 0 && conn.offset == 0
    && conn.header == seq(HEADER_SIZE, _ => 0)
  }

  /** The root directory the root meta names once `data` has landed at `offset`. */
  function ArrivedRoot(meta: seq<Byte>, offset: nat, data: seq<Byte>): Hash
    requires |meta| == FILE_META_SIZE && offset + |data| <= FILE_META_SIZE
  {
    DecodeFileMeta(Place(meta, offset, data)).content
  }

  /** A connection whose push still needs its root meta: no context yet (and no allocator), or one without the root. */
  ghost predicate AwaitsRoot(conn: Connection)
    reads conn, conn.context
  {
    if conn.context == null then conn.allocator == null else !conn.context.haveRoot
  }

  /** Where the root read starts: a new context reads the root meta from its start. */
  function RootOffset(conn: Connection): nat
    reads conn
  {
    if conn.context == null then 0 else conn.offset
  }

  /** The root meta buffer the read lands in: a new context's is zeroed. */
  function RootBuffer(conn: Connection): seq<Byte>
    reads conn, conn.context
  {
    if conn.context == null then seq(FILE_META_SIZE, _ => 0) else conn.context.snapshotMeta
  }

  /**
   * How the start of a push ends when the root read, from `offset` into
   * `meta`, gets `answer`: a failed read is fatal; an incomplete one
   * returns 0 with the root still pending; a complete one starts the walk
   * from the directory it names unless `files` already has that
   * directory, and then the connection is reset.
   */
  ghost predicate RootReadEnds(conn: Connection, files: map<string, seq<Byte>>, offset: nat, meta: seq<Byte>, answer: (OpResult, seq<Byte>), r: Status<bool>)
    requires |meta| == FILE_META_SIZE && offset + |answer.1| <= FILE_META_SIZE
    requires answer.0.Moved? ==> answer.0.count == |answer.1|
    reads conn, conn.context
  {
    var t := Transfer(offset, FILE_META_SIZE, answer.0);
    var root := ArrivedRoot(meta, offset, answer.1);
    && (r.Abort? <==> t.Abort?)
    && (t.Ok? && t.value.1 != 0 ==>
          && r == Ok(false) && conn.context != null && !conn.context.haveRoot
          && conn.offset == t.value.0 && conn.context.snapshotMeta == Place(meta, offset, answer.1))
    && (t.Ok? && t.value.1 == 0 ==>
          && (r == Ok(true) <==> Path(root) !in files)
          && (r == Ok(true) ==> conn.context != null && conn.context.currentDirRecord == root)
          && (Path(root) in files ==> r == Ok(false) && WasReset(conn)))
  }

  /**
   * The root read of the handler: the root meta arrives, and once it is
   * complete the directory it names becomes the walk's start.
   */
  method ReceiveRoot(conn: Connection, sock: Socket, store: Store) returns (r: Status<bool>)
    requires Ready(conn, store) && conn.context != null && !conn.context.haveRoot
    modifies conn, conn.context, sock, store
    ensures conn.context == old(conn.context) && conn.allocator == old(conn.allocator)
    ensures var (a, data) := old(sock.ReadAnswer(conn.size - conn.offset));
            var t := Transfer(old(conn.offset), old(conn.size), a);
            && (r.Abort? <==> t.Abort?)
            && (t.Ok? ==> r == Ok(t.value.1 == 0) && conn.offset == t.value.0)
            && conn.context.snapshotMeta == Place(old(conn.context.snapshotMeta), old(conn.offset), data)
    ensures store.files == old(store.files) && sock.sent == old(sock.sent)
    ensures r.Ok? && !r.value ==> Ready(conn, store) && !conn.context.haveRoot
    ensures r.Ok? && r.value ==>
              && Walking(conn, store) && conn.Fits(store) && conn.context.haveRoot && conn.context.state == Initial
              && conn.context.currentDirRecord == DecodeFileMeta(conn.context.snapshotMeta).content
              && conn.context.stack == old(conn.context.stack)
    ensures conn.state == old(conn.state)
  {
    var context := conn.context;
    var rc := conn.Read(sock, store);
    if rc.Abort? {
      return Abort(rc.reason);
    }
    if rc.value != 0 {
      return Ok(false);
    }
    context.haveRoot := true;
    context.currentDirRecord := DecodeFileMeta(context.snapshotMeta).content;
    r := Ok(true);
  }

  /**
   * `scas_connection_handle_snapshot_push`: sets up the context, reads the
   * root meta until it is complete, and takes the directory it names as
   * the walk's start; a snapshot whose root directory the store already
   * has needs no walk, and the connection is reset.
   */
  method HandleSnapshotPush(conn: Connection, sock: Socket, store: Store, env: Env, fuel: nat) returns (out: Outcome)
    requires ValidEnv(env) && Ready(conn, store)
    modifies conn, conn.context, if conn.context == null then {} else {conn.context.stack}, conn.allocator, sock, store
    ensures out.Return? ==> out.code == 0 && Ready(conn, store)
    ensures out.Unfinished? ==> out.marker == "FETCHING_FILE"
    ensures old(conn.context) == null && old(conn.allocator) != null ==> out.Fatal?
    ensures old(AwaitsRoot(conn)) ==>
              var (a, data) := old(sock.ReadAnswer(FILE_META_SIZE - RootOffset(conn)));
              var t := Transfer(old(RootOffset(conn)), FILE_META_SIZE, a);
              var root := ArrivedRoot(old(RootBuffer(conn)), old(RootOffset(conn)), data);
              && (t.Abort? ==> out.Fatal?)
              && (t.Ok? && t.value.1 != 0 ==>
                    out == Return(0) && conn.context != null && !conn.context.haveRoot && conn.offset == t.value.0 && sock.sent == old(sock.sent))
              && (t.Ok? && t.value.1 == 0 && Path(root) in old(store.files) ==>
                    out == Return(0) && WasReset(conn) && sock.sent == old(sock.sent))
    ensures conn.state == old(conn.state)
  {
    var go := Start(conn, sock, store, env);
    if go.Abort? {
      return Outcome.Fatal(go.reason);
    }
    if !go.value {
      return Return(0);
    }
    out := Walk(conn, sock, store, env, fuel);
  }

  /**
   * The part of `scas_connection_handle_snapshot_push` before the walk:
   * Ok(true) when the walk is to run, Ok(false) when the handler returns
   * 0 (the root meta is still arriving, or the snapshot is already
   * stored and the connection reset).
   */
  method Start(conn: Connection, sock: Socket, store: Store, env: Env) returns (r: Status<bool>)
    requires ValidEnv(env) && Ready(conn, store)
    modifies conn, conn.context, conn.allocator, sock, store
    ensures r.Ok? && !r.value ==> Ready(conn, store)
    ensures r.Ok? && r.value ==>
              && Walking(conn, store) && conn.context.haveRoot
              && Saved(conn.context.state) && Resumable(conn, store, conn.context.state)
    ensures r.Ok? && r.value && old(conn.context) != null ==>
              conn.context == old(conn.context) && conn.context.stack == old(conn.context.stack) && conn.allocator == old(conn.allocator)
    ensures r.Ok? && r.value && old(conn.context) == null ==>
              fresh(conn.context) && fresh(conn.context.stack) && fresh(conn.allocator)
    ensures old(conn.context) == null && old(conn.allocator) != null ==> r.Abort?
    ensures old(conn.context) != null && old(conn.context.haveRoot) ==> r == Ok(true) && unchanged(conn)
    ensures old(AwaitsRoot(conn)) ==>
              RootReadEnds(conn, old(store.files), old(RootOffset(conn)), old(RootBuffer(conn)), old(sock.ReadAnswer(FILE_META_SIZE - RootOffset(conn))), r)
    ensures store.files == old(store.files) && sock.sent == old(sock.sent)
    ensures conn.state == old(conn.state)
  {
    var init := InitializeContext(conn, store, env);
    if init.Abort? {
      return Abort(init.reason);
    }
    var context := init.value;
    if !context.haveRoot {
      assert conn.size - conn.offset == old(FILE_META_SIZE - RootOffset(conn));
      assert sock.ReadAnswer(conn.size - conn.offset) == old(sock.ReadAnswer(FILE_META_SIZE - RootOffset(conn)));
      r := StartFromRoot(conn, sock, store);
      return;
    }
    r := Ok(true);
  }

  /**
   * The root half of the start of a push: the root meta is read, and a
   * snapshot whose root directory is already stored ends the push.
   */
  method StartFromRoot(conn: Connection, sock: Socket, store: Store) returns (r: Status<bool>)
    requires Ready(conn, store) && conn.context != null && !conn.context.haveRoot
    modifies conn, conn.context, conn.allocator, sock, store
    ensures r.Ok? && !r.value ==> Ready(conn, store)
    ensures r.Ok? && r.value ==>
              && Walking(conn, store) && conn.Fits(store) && conn.context.haveRoot && conn.context.state == Initial
              && conn.context == old(conn.context) && conn.context.stack == old(conn.context.stack)
              && conn.allocator == old(conn.allocator)
              && Path(conn.context.currentDirRecord) !in store.files
    ensures RootReadEnds(conn, old(store.files), old(conn.offset), old(conn.context.snapshotMeta), old(sock.ReadAnswer(conn.size - conn.offset)), r)
    ensures store.files == old(store.files) && sock.sent == old(sock.sent)
    ensures conn.state == old(conn.state)
  {
    var context := conn.context;
    var received := ReceiveRoot(conn, sock, store);
    if received.Abort? {
      return Abort(received.reason);
    }
    if !received.value {
      return Ok(false);
    }
    var present := store.Contains(context.currentDirRecord);
    if present {
      conn.Reset();
      return Ok(false);
    }
    r := Ok(true);
  }

  // ----- the code as written -----

  /**
   * The root read as written asks for `sizeof(struct
   * scas_snapshot_push_context_t)` bytes: once the 40-byte root meta has
   * arrived, in one chunk or two, the read still answers 1, so the
   * handler keeps returning 0 and never starts the walk.
   */
  lemma AsWrittenRootReadWaits(a: nat, b: nat)
    requires a + b == FILE_META_SIZE
    ensures Transfer(0, PUSH_CONTEXT_SIZE, Moved(a)).Ok?
    ensures Transfer(Transfer(0, PUSH_CONTEXT_SIZE, Moved(a)).value.0, PUSH_CONTEXT_SIZE, Moved(b)) == Ok((FILE_META_SIZE, 1))
  {
    TransferCompose(0, PUSH_CONTEXT_SIZE, a, b);
  }

  /**
   * INITIAL as written leaves the finished transfer in place: `ptr` still
   * names the root meta with its offset at its size.  FETCHING_DIRECTORY
   * then sees a non-NULL `ptr`, does not fill in the request, and writes
   * the empty rest of that transfer: nothing reaches the peer, the write
   * answers 0, and the walk waits for the reply to a request it never sent.
   */
  method AsWrittenFetchSendsNothing(conn: Connection, sock: Socket, store: Store) returns (rc: Status<int>)
    requires conn.Fits(store) && conn.ptr.RootMeta? && conn.offset == conn.size
    modifies conn, sock
    ensures rc == Ok(0) && conn.offset == old(conn.offset) && sock.sent == old(sock.sent)
  {
    assert conn.Buffer(store)[conn.offset..conn.size] == [];
    assert sock.WriteAnswer([]) == Moved(0);
    rc := conn.Write(sock, store);
  }

  /** The descent of ITERATING_OVER_DIRECTORY as written: `context->depth++` with no check against the stack. */
  method AsWrittenDescend(context: PushContext, child: Hash)
    requires context.Valid() && 0 <= context.depth < STACK_DEPTH
    modifies context
    ensures context.depth == old(context.depth) + 1 && context.currentDirRecord == child
    ensures context.Valid() && context.stack == old(context.stack)
  {
    context.depth := context.depth + 1;
    context.currentDirRecord := child;
  }

  /** From the last frame the descent as written leaves a depth that indexes one past the stack's end. */
  method AsWrittenDescentOverruns(context: PushContext, child: Hash)
    requires context.Valid() && context.depth == STACK_DEPTH - 1
    modifies context
    ensures context.depth == context.stack.Length
  {
    AsWrittenDescend(context, child);
  }

  /** `up_one_level` as written: the parent becomes current and `--context->depth`, at the root too. */
  method AsWrittenAscend(context: PushContext, store: Store, env: Env) returns (r: Status<()>, ghost blob: seq<Byte>)
    requires context.Valid() && 0 <= context.depth < STACK_DEPTH && store.Valid()
    modifies context, store
    ensures var h := old(context.currentDirRecord);
            r.Ok? <==> old(Readable(store, h, env.open(h))) && |blob| >= DIR_META_SIZE
    ensures r.Ok? ==>
              && Maps(store.index, old(context.currentDirRecord), blob)
              && context.currentDirRecord == Parent(blob) && context.depth == old(context.depth) - 1
  {
    var parent;
    parent, blob := GetParent(store, context.currentDirRecord, env.open(context.currentDirRecord));
    if parent.Abort? {
      return Abort(parent.reason), blob;
    }
    context.currentDirRecord := parent.value;
    context.depth := context.depth - 1;
    r := Ok(());
  }

  /**
   * Finishing the root's directory, `up_one_level` as written reads the
   * parent recorded in the root's own object and leaves depth -1, the
   * index of no frame.
   */
  method AsWrittenUpPastRoot(context: PushContext, store: Store, env: Env) returns (r: Status<()>)
    requires context.Valid() && context.depth == 0 && store.Valid()
    requires Readable(store, context.currentDirRecord, env.open(context.currentDirRecord))
    modifies context, store
    ensures r.Ok? ==> context.depth == -1
  {
    ghost var blob;
    r, blob := AsWrittenAscend(context, store, env);
  }

  /**
   * After the descent's `break`, the code as written falls through into
   * `up_one_level` with the new, missing directory current: its parent is
   * read from an object the store does not have.
   */
  method AsWrittenDescentFallsThrough(store: Store, child: Hash, open: OpenResult) returns (r: Status<Hash>)
    requires store.Valid() && Path(child) !in store.files
    modifies store
    ensures r.Abort?
  {
    ghost var blob;
    r, blob := GetParent(store, child, open);
  }
}
