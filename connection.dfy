/**
 * The connection record of server/scas_connection.c and the resumable,
 * non-blocking transfer that `SCAS_CONNECTION_DEFINE_OP` generates as
 * `scas_connection_read` and `scas_connection_write`.  A connection keeps
 * one transfer in flight: `ptr` names the buffer, `offset` how much of it
 * has moved and `size` its length.  The socket is an input: each `read` or
 * `write` call takes its next answer from it.
 */
module Connection {
  import opened Wrappers
  import opened Hash
  import opened Packet
  import opened Meta
  import opened LinearAllocator
  import opened CasIndex
  import opened Cas

  /** `enum connection_state_t`. */
  datatype ConnState = New | ReceivingHeader

  /** The buffers `connection->ptr` points into. */
  datatype Target =
    | NoTarget      // NULL
    | HeaderBuf     // &connection->header
    | RootMeta      // &context->snapshot_meta
    | PushHeader    // &context->push_header
    | FetchPacket   // &context->fetch_packet
    | SlotMem       // the write slot's shared mapping

  /** What one `read` or `write` call does: moves bytes, would block (`EAGAIN`), or fails otherwise. */
  datatype OpResult = Moved(count: nat) | WouldBlock | Failed

  /** What the socket holds for the next `read`: a chunk of bytes, nothing yet, or an error. */
  datatype ReadResult = Received(data: seq<Byte>) | ReadWouldBlock | ReadFailed

  /** What the socket answers to the next `write`: bytes accepted, no room, or an error. */
  datatype WriteResult = Accepted(count: nat) | WriteWouldBlock | WriteFailed

  // ----- the bookkeeping of one call -----

  /**
   * The effect of one call on `offset` and the return value: moved bytes
   * advance the offset, and the call answers 0 exactly when the transfer
   * is complete; would-block answers 1; any other error fails the assert.
   */
  function Transfer(offset: nat, size: nat, r: OpResult): (t: Status<(nat, int)>)
    requires offset <= size && (r.Moved? ==> r.count <= size - offset)
    ensures r.Failed? <==> t.Abort?
    ensures t.Ok? ==> t.value.0 <= size
    ensures t.Ok? && t.value.1 == 0 ==> t.value.0 == size
    ensures t.Ok? ==> t.value.1 == 0 || t.value.1 == 1
    ensures r.Moved? ==> t == Ok(((offset + r.count) as nat, if offset + r.count == size then 0 else 1))
    ensures r.WouldBlock? ==> t == Ok((offset, 1))
  {
    match r
    case Moved(count) =>
      var newOffset := offset + count;
      Ok((newOffset, if newOffset != size then 1 else 0))
    case WouldBlock => Ok((offset, 1))
    case Failed => Abort("errno == EAGAIN || errno == EWOULDBLOCK")
  }

  /** Two partial transfers in a row move as much as one transfer of both. */
  lemma TransferCompose(offset: nat, size: nat, a: nat, b: nat)
    requires offset + a + b <= size
    ensures Transfer(offset, size, Moved(a)).Ok?
    ensures Transfer(Transfer(offset, size, Moved(a)).value.0, size, Moved(b)) == Transfer(offset, size, Moved(a + b))
  {
  }

  /** The buffer after a read lands `data` at `offset`. */
  function Place(buf: seq<Byte>, offset: nat, data: seq<Byte>): (r: seq<Byte>)
    requires offset + |data| <= |buf|
    ensures |r| == |buf|
    ensures r[offset..offset + |data|] == data
    ensures r[..offset] == buf[..offset] && r[offset + |data|..] == buf[offset + |data|..]
  {
    buf[..offset] + data + buf[offset + |data|..]
  }

  /** Two partial reads in a row leave the buffer as one read of both chunks. */
  lemma PlaceCompose(buf: seq<Byte>, offset: nat, d1: seq<Byte>, d2: seq<Byte>)
    requires offset + |d1| + |d2| <= |buf|
    ensures Place(Place(buf, offset, d1), offset + |d1|, d2) == Place(buf, offset, d1 + d2)
  {
    var r1 := Place(buf, offset, d1);
    var lhs := Place(r1, offset + |d1|, d2);
    var rhs := Place(buf, offset, d1 + d2);
    assert lhs[..offset] == rhs[..offset];
    assert lhs[offset..offset + |d1|] == r1[offset..offset + |d1|];
    assert lhs == lhs[..offset] + lhs[offset..offset + |d1|] + lhs[offset + |d1|..offset + |d1| + |d2|] + lhs[offset + |d1| + |d2|..];
    assert rhs == rhs[..offset] + rhs[offset..offset + |d1| + |d2|] + rhs[offset + |d1| + |d2|..];
  }

  /**
   * A transfer delivered in chunks: the offset after them all, and the
   * buffer holding their concatenation at the starting offset.
   */
  function Concat(chunks: seq<seq<Byte>>): (r: seq<Byte>) {
    if chunks == [] then [] else chunks[0] + Concat(chunks[1..])
  }

  function PlaceAll(buf: seq<Byte>, offset: nat, chunks: seq<seq<Byte>>): (r: seq<Byte>)
    requires offset + |Concat(chunks)| <= |buf|
    ensures |r| == |buf|
    decreases |chunks|
  {
    if chunks == [] then buf
    else
      assert |Concat(chunks)| == |chunks[0]| + |Concat(chunks[1..])|;
      PlaceAll(Place(buf, offset, chunks[0]), offset + |chunks[0]|, chunks[1..])
  }

  /**
   * Resumption: however a read is split across calls, the buffer ends up
   * holding the bytes in the order they arrived.
   */
  lemma {:induction false} PlaceAllIsPlace(buf: seq<Byte>, offset: nat, chunks: seq<seq<Byte>>)
    requires offset + |Concat(chunks)| <= |buf|
    ensures PlaceAll(buf, offset, chunks) == Place(buf, offset, Concat(chunks))
    decreases |chunks|
  {
    if chunks == [] {
      assert Place(buf, offset, []) == buf by {
        assert buf == buf[..offset] + [] + buf[offset..];
      }
    } else {
      var rest := Concat(chunks[1..]);
      assert Concat(chunks) == chunks[0] + rest;
      PlaceAllIsPlace(Place(buf, offset, chunks[0]), offset + |chunks[0]|, chunks[1..]);
      PlaceCompose(buf, offset, chunks[0], rest);
    }
  }

  // ----- the peer -----

  /**
   * The socket as the server sees it through non-blocking calls.  A chunk
   * larger than the request is split: the rest stays for the next read.
   * A zero-length request returns 0 at once.
   */
  class Socket {
    var incoming: seq<ReadResult>
    var replies: seq<WriteResult>
    /** Everything the peer has been sent so far. */
    var sent: seq<Byte>

    constructor (incoming: seq<ReadResult>, replies: seq<WriteResult>)
      ensures this.incoming == incoming && this.replies == replies && sent == []
    {
      this.incoming := incoming;
      this.replies := replies;
      sent := [];
    }

    /** The answer the next `read` of `nbytes` gets, and the bytes it delivers. */
    function ReadAnswer(nbytes: nat): (a: (OpResult, seq<Byte>))
      reads this
      ensures a.0.Moved? ==> a.0.count == |a.1| <= nbytes
      ensures !a.0.Moved? ==> a.1 == []
    {
      if nbytes == 0 then (Moved(0), [])
      else if incoming == [] then (WouldBlock, [])
      else match incoming[0]
        case Received(d) =>
          var k := if |d| <= nbytes then |d| else nbytes;
          (Moved(k), d[..k])
        case ReadWouldBlock => (WouldBlock, [])
        case ReadFailed => (Failed, [])
    }

    method Receive(nbytes: nat) returns (r: OpResult, data: seq<Byte>)
      modifies this
      ensures (r, data) == old(ReadAnswer(nbytes))
      ensures replies == old(replies) && sent == old(sent)
      ensures nbytes == 0 || old(incoming) == [] ==> incoming == old(incoming)
      ensures nbytes > 0 && old(incoming) != [] ==>
                incoming == match old(incoming[0])
                  case Received(d) => if |d| <= nbytes then old(incoming[1..]) else [Received(d[nbytes..])] + old(incoming[1..])
                  case _ => old(incoming[1..])
    {
      r, data := ReadAnswer(nbytes).0, ReadAnswer(nbytes).1;
      if nbytes == 0 || incoming == [] {
        return;
      }
      match incoming[0]
      case Received(d) =>
        incoming := if |d| <= nbytes then incoming[1..] else [Received(d[nbytes..])] + incoming[1..];
      case _ =>
        incoming := incoming[1..];
    }

    /** The answer the next `write` of `bytes` gets. */
    function WriteAnswer(bytes: seq<Byte>): (r: OpResult)
      reads this
      ensures r.Moved? ==> r.count <= |bytes|
    {
      if |bytes| == 0 then Moved(0)
      else if replies == [] then WouldBlock
      else match replies[0]
        case Accepted(c) => Moved(if c <= |bytes| then c else |bytes|)
        case WriteWouldBlock => WouldBlock
        case WriteFailed => Failed
    }

    method Send(bytes: seq<Byte>) returns (r: OpResult)
      modifies this
      ensures r == old(WriteAnswer(bytes))
      ensures incoming == old(incoming)
      ensures sent == old(sent) + (if r.Moved? then bytes[..r.count] else [])
      ensures replies == if |bytes| == 0 || old(replies) == [] then old(replies) else old(replies[1..])
    {
      r := WriteAnswer(bytes);
      if |bytes| == 0 || replies == [] {
        return;
      }
      replies := replies[1..];
      if r.Moved? {
        sent := sent + bytes[..r.count];
      }
    }
  }

  // ----- the snapshot-push context -----

  /** `struct scas_recursion_context_t`. */
  datatype Frame = Frame(numEntries: nat, currentIdx: nat, visited: int)

  /** `enum scas_snapshot_push_iterate_state_t`. */
  datatype WalkState =
    | Initial
    | FetchingDirectory
    | ReadingDirectoryHeader
    | ReadingDirectory
    | IteratingOverDirectory
    | FetchingFile

  /** The depth of `stack` in `struct scas_snapshot_push_context_t`. */
  const STACK_DEPTH: nat := 1024

  /** sizeof(struct scas_snapshot_push_context_t) on LP64. */
  const PUSH_CONTEXT_SIZE: nat := 12432

  /** sizeof(struct scas_fetch_packet_t): a header and a fingerprint, padded to 8. */
  const FETCH_PACKET_SIZE: nat := 40

  /**
   * `struct scas_snapshot_push_context_t`.  It lives in the connection's
   * allocator, whose pages start zeroed, so a fresh context is all zeros.
   */
  class PushContext {
    var snapshotMeta: seq<Byte>
    var currentDirRecord: Hash
    var pushHeader: seq<Byte>
    var fetchPacket: seq<Byte>
    /** `cas_entry`: set once it points at the write slot. */
    var hasCasEntry: bool
    var haveRoot: bool
    var depth: int
    var state: WalkState
    var stack: array<Frame>

    ghost predicate Valid()
      reads this
    {
      |snapshotMeta| == FILE_META_SIZE && |pushHeader| == HEADER_SIZE
      && |fetchPacket| == FETCH_PACKET_SIZE && stack.Length == STACK_DEPTH
    }

    constructor ()
      ensures Valid() && fresh(stack)
      ensures snapshotMeta == seq(FILE_META_SIZE, _ => 0) && currentDirRecord == ZERO_HASH
      ensures pushHeader == seq(HEADER_SIZE, _ => 0) && fetchPacket == seq(FETCH_PACKET_SIZE, _ => 0)
      ensures !hasCasEntry && !haveRoot && depth == 0 && state == Initial
      ensures forall i :: 0 <= i < STACK_DEPTH ==> stack[i] == Frame(0, 0, 0)
    {
      snapshotMeta := seq(FILE_META_SIZE, _ => 0);
      currentDirRecord := ZERO_HASH;
      pushHeader := seq(HEADER_SIZE, _ => 0);
      fetchPacket := seq(FETCH_PACKET_SIZE, _ => 0);
      hasCasEntry := false;
      haveRoot := false;
      depth := 0;
      state := Initial;
      stack := new Frame[STACK_DEPTH](_ => Frame(0, 0, 0));
    }
  }

  // ----- the connection -----

  /** `struct scas_connection_t` without its list links and `fd`, which the pool keeps. */
  class Connection {
    var header: seq<Byte>
    var state: ConnState
    var allocator: Allocator?
    var context: PushContext?
    var ptr: Target
    var offset: nat
    var size: nat

    function Header(): Header
      reads this
      requires |header| == HEADER_SIZE
    {
      DecodeHeader(header)
    }

    /** The bytes `ptr` points at, `size` of them when the transfer fits. */
    function Buffer(store: Store): seq<Byte>
      reads this, context, store
    {
      match ptr
      case NoTarget => []
      case HeaderBuf => header
      case RootMeta => if context == null then [] else context.snapshotMeta
      case PushHeader => if context == null then [] else context.pushHeader
      case FetchPacket => if context == null then [] else context.fetchPacket
      case SlotMem => if store.slot.mem.Some? then store.slot.mem.value else []
    }

    /** The transfer in flight stays inside its buffer. */
    ghost predicate Fits(store: Store)
      reads this, context, store
    {
      && |header| == HEADER_SIZE
      && (context != null ==> context.Valid())
      && offset <= size && size == |Buffer(store)|
      && (ptr.RootMeta? || ptr.PushHeader? || ptr.FetchPacket? ==> context != null)
      && (ptr.SlotMem? ==> store.slot.mem.Some?)
    }

    /** Every field zero, as `calloc` and the `memset` of `scas_connection_free` leave a record. */
    ghost predicate Zeroed()
      reads this
    {
      && header == seq(HEADER_SIZE, _ => 0) && state == New
      && allocator == null && context == null
      && ptr == NoTarget && offset == 0 && size == 0
    }

    /** calloc: a zeroed record. */
    constructor ()
      ensures header == seq(HEADER_SIZE, _ => 0) && state == New
      ensures allocator == null && context == null
      ensures ptr == NoTarget && offset == 0 && size == 0
    {
      header := seq(HEADER_SIZE, _ => 0);
      state := New;
      allocator := null;
      context := null;
      ptr := NoTarget;
      offset := 0;
      size := 0;
    }

    /** Lands `data` at `offset` of the buffer `ptr` names. */
    method Deposit(store: Store, data: seq<Byte>)
      requires Fits(store) && store.Valid() && offset + |data| <= size
      modifies this, context, store
      ensures ptr == old(ptr) && offset == old(offset) && size == old(size) && state == old(state)
      ensures Fits(store) && store.Valid()
      ensures Buffer(store) == Place(old(Buffer(store)), old(offset), data)
      ensures allocator == old(allocator) && context == old(context)
      ensures !old(ptr).HeaderBuf? ==> header == old(header)
      ensures context != null ==>
                && context.currentDirRecord == old(context.currentDirRecord)
                && context.hasCasEntry == old(context.hasCasEntry) && context.haveRoot == old(context.haveRoot)
                && context.depth == old(context.depth) && context.state == old(context.state) && context.stack == old(context.stack)
                && (!old(ptr).RootMeta? ==> context.snapshotMeta == old(context.snapshotMeta))
                && (!old(ptr).PushHeader? ==> context.pushHeader == old(context.pushHeader))
                && (!old(ptr).FetchPacket? ==> context.fetchPacket == old(context.fetchPacket))
      ensures store.index == old(store.index) && store.counter == old(store.counter) && store.allocLimit == old(store.allocLimit)
      ensures store.slot.hash == old(store.slot.hash) && store.slot.fd == old(store.slot.fd) && store.slot.size == old(store.slot.size)
      ensures !old(ptr).SlotMem? ==> store.slot == old(store.slot) && store.files == old(store.files)
    {
      match ptr
      case NoTarget =>
        assert data == [] && Place([], offset, data) == [];
      case HeaderBuf =>
        header := Place(header, offset, data);
      case RootMeta =>
        context.snapshotMeta := Place(context.snapshotMeta, offset, data);
      case PushHeader =>
        context.pushHeader := Place(context.pushHeader, offset, data);
      case FetchPacket =>
        context.fetchPacket := Place(context.fetchPacket, offset, data);
      case SlotMem =>
        store.WriteSlot(offset, data);
    }

    /**
     * `scas_connection_read`: reads what the socket has, up to the rest of
     * the buffer, and answers 0 when the buffer is full, 1 when more is
     * needed.
     */
    method Read(sock: Socket, store: Store) returns (rc: Status<int>)
      requires Fits(store) && store.Valid()
      modifies this, context, sock, store
      ensures Fits(store) && store.Valid()
      ensures var (r, data) := old(sock.ReadAnswer(size - offset));
              var t := Transfer(old(offset), old(size), r);
              && (rc.Abort? <==> t.Abort?)
              && (t.Ok? ==> rc == Ok(t.value.1) && offset == t.value.0)
              && Buffer(store) == Place(old(Buffer(store)), old(offset), data)
      ensures ptr == old(ptr) && size == old(size) && state == old(state)
      ensures allocator == old(allocator) && context == old(context)
      ensures !old(ptr).HeaderBuf? ==> header == old(header)
      ensures sock.replies == old(sock.replies) && sock.sent == old(sock.sent)
      ensures context != null ==>
                && context.currentDirRecord == old(context.currentDirRecord)
                && context.hasCasEntry == old(context.hasCasEntry) && context.haveRoot == old(context.haveRoot)
                && context.depth == old(context.depth) && context.state == old(context.state) && context.stack == old(context.stack)
                && (!old(ptr).RootMeta? ==> context.snapshotMeta == old(context.snapshotMeta))
                && (!old(ptr).PushHeader? ==> context.pushHeader == old(context.pushHeader))
                && (!old(ptr).FetchPacket? ==> context.fetchPacket == old(context.fetchPacket))
      ensures store.index == old(store.index) && store.counter == old(store.counter) && store.allocLimit == old(store.allocLimit)
      ensures store.slot.hash == old(store.slot.hash) && store.slot.fd == old(store.slot.fd) && store.slot.size == old(store.slot.size)
      ensures !old(ptr).SlotMem? ==> store.slot == old(store.slot) && store.files == old(store.files)
    {
      var nbytes := size - offset;
      var r, data := sock.Receive(nbytes);
      var t := Transfer(offset, size, r);
      Deposit(store, data);
      if t.Abort? {
        return Abort(t.reason);
      }
      Seek(store, t.value.0);
      rc := Ok(t.value.1);
    }

    /** Starts a transfer of `size` bytes into or out of the buffer `t` names. */
    method Point(t: Target, size: nat)
      modifies this
      ensures ptr == t && offset == 0 && this.size == size
      ensures header == old(header) && state == old(state)
      ensures allocator == old(allocator) && context == old(context)
    {
      ptr, offset, this.size := t, 0, size;
    }

    /** Moves the cursor of the transfer in flight. */
    method Seek(store: Store, to: nat)
      requires Fits(store) && to <= size
      modifies this
      ensures Fits(store) && offset == to && Buffer(store) == old(Buffer(store))
      ensures ptr == old(ptr) && size == old(size) && state == old(state) && header == old(header)
      ensures allocator == old(allocator) && context == old(context)
    {
      offset := to;
    }

    /**
     * `scas_connection_write`: sends as much of the rest of the buffer as
     * the socket takes, and answers 0 when all of it has gone.
     */
    method Write(sock: Socket, store: Store) returns (rc: Status<int>)
      requires Fits(store)
      modifies this, sock
      ensures Fits(store)
      ensures var r := old(sock.WriteAnswer(Buffer(store)[offset..size]));
              var t := Transfer(old(offset), old(size), r);
              && (rc.Abort? <==> t.Abort?)
              && (t.Ok? ==> rc == Ok(t.value.1) && offset == t.value.0)
              && sock.sent == old(sock.sent) + (if r.Moved? then old(Buffer(store)[offset..offset + r.count]) else [])
      ensures ptr == old(ptr) && size == old(size) && state == old(state) && header == old(header)
      ensures allocator == old(allocator) && context == old(context)
      ensures sock.incoming == old(sock.incoming)
    {
      var bytes := Buffer(store)[offset..size];
      var r := sock.Send(bytes);
      var t := Transfer(offset, size, r);
      if t.Abort? {
        return Abort(t.reason);
      }
      if r.Moved? {
        assert bytes[..r.count] == Buffer(store)[offset..offset + r.count];
      }
      offset := t.value.0;
      rc := Ok(t.value.1);
    }

    /**
     * `scas_connection_reset`: drops the transfer, the context and its
     * allocator, and zeroes the header; the state (and the socket) stay.
     */
    method Reset()
      modifies this, allocator
      ensures header == seq(HEADER_SIZE, _ => 0)
      ensures allocator == null && context == null
      ensures ptr == NoTarget && size == 0 && offset == 0
      ensures state == old(state)
      ensures old(allocator) != null ==> !old(allocator).mapped
    {
      header := seq(HEADER_SIZE, _ => 0);
      var _ := Destroy(allocator);
      allocator := null;
      context := null;
      ptr := NoTarget;
      size := 0;
      offset := 0;
    }

    /** The `memset` of `scas_connection_free`: every field zero. */
    method Clear()
      modifies this
      ensures header == seq(HEADER_SIZE, _ => 0) && state == New
      ensures allocator == null && context == null
      ensures ptr == NoTarget && offset == 0 && size == 0
    {
      header := seq(HEADER_SIZE, _ => 0);
      state := New;
      allocator := null;
      context := null;
      ptr := NoTarget;
      offset := 0;
      size := 0;
    }
  }
}
