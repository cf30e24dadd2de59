/**
 * The per-connection entry of server/scas_connection.c: the state machine
 * of `scas_connection_iterate`, which reads a command header and then
 * routes it through `scas_connection_process_command`, and
 * `scas_handle_connection`, which finds or allocates the connection of a
 * socket and runs one round of it.
 *
 * CMD_QUIT is not among the commands the packet header declares, so its
 * value is a parameter, required to differ from every declared command.
 */
module Dispatch {
  import opened Wrappers
  import opened Hash
  import opened Packet
  import opened Cas
  import opened Connection
  import opened ConnectionPool
  import opened SnapshotPush

  /** A value for CMD_QUIT: none of the declared commands, and a u32. */
  predicate ValidQuit(quitCode: nat) {
    CMD_DATA_PUSH < quitCode < Pow256(4)
  }

  /** The case of the command switch a header's command takes. */
  datatype Route = ToSnapshotPush | ToSnapshotPull | ToDataFetch | ToQuit | Garbled

  /** The command switch of `scas_connection_process_command`. */
  function RouteOf(command: nat, quitCode: nat): (r: Route)
    requires ValidQuit(quitCode)
    ensures r.Garbled? <==> command !in {CMD_SNAPSHOT_PUSH, CMD_SHAPSHOT_PULL, CMD_DATA_FETCH, quitCode}
    ensures r.ToQuit? <==> command == quitCode
  {
    if command == CMD_SNAPSHOT_PUSH then ToSnapshotPush
    else if command == CMD_SHAPSHOT_PULL then ToSnapshotPull
    else if command == CMD_DATA_FETCH then ToDataFetch
    else if command == quitCode then ToQuit
    else Garbled
  }

  /** A header the client writes with command `c` is routed as `c`. */
  lemma RouteOfSentHeader(packetSize: nat, c: nat, quitCode: nat)
    requires ValidQuit(quitCode) && packetSize < Pow256(8) && c < Pow256(4)
    ensures RouteOf(DecodeHeader(EncodeHeader(Header(packetSize, c))).command, quitCode) == RouteOf(c, quitCode)
    ensures c == quitCode ==> RouteOf(DecodeHeader(EncodeHeader(Header(packetSize, c))).command, quitCode) == ToQuit
  {
    HeaderRoundTrip(Header(packetSize, c));
  }

  lemma {:induction false} DecodeZeros(n: nat)
    ensures DecodeLE(seq(n, _ => 0)) == 0
  {
    if n > 0 {
      assert seq(n, _ => 0)[1..] == seq(n - 1, _ => 0);
      DecodeZeros(n - 1);
    }
  }

  /**
   * The zeroed header `scas_connection_reset` leaves carries command 0,
   * CMD_SNAPSHOT_LIST, which the switch has no case for.
   */
  lemma ResetHeaderIsGarbled(quitCode: nat)
    requires ValidQuit(quitCode)
    ensures DecodeHeader(seq(HEADER_SIZE, _ => 0)).command == CMD_SNAPSHOT_LIST
    ensures RouteOf(DecodeHeader(seq(HEADER_SIZE, _ => 0)).command, quitCode) == Garbled
  {
    var z := seq(HEADER_SIZE, _ => 0);
    assert z[8..12] == seq(4, _ => 0);
    DecodeZeros(4);
  }

  /** A connection between rounds: a fresh one has no transfer and no push begun. */
  ghost predicate Idle(conn: Connection, store: Store)
    reads conn, conn.context, store
  {
    && Ready(conn, store)
    && (conn.state.New? ==> conn.ptr.NoTarget? && conn.context == null && conn.allocator == null)
  }

  lemma ZeroedIsIdle(conn: Connection, store: Store)
    requires conn.Zeroed() && store.Valid()
    ensures Idle(conn, store)
  {
  }

  /** What the command switch answers for each route. */
  predicate RoutedAs(route: Route, out: Outcome) {
    && (route.Garbled? ==> out == Outcome.Fatal("Garbled command field."))
    && (route.ToQuit? <==> out == Return(1))
    && (route.ToSnapshotPull? || route.ToDataFetch? ==> out == Return(0))
    && (route.ToSnapshotPush? ==> !out.Return? || out.code == 0)
  }

  /**
   * `scas_connection_process_command`: SNAPSHOT_PUSH runs the push
   * handler; SNAPSHOT_PULL and DATA_FETCH do nothing yet and return 0;
   * QUIT frees the connection and returns 1; any other command fails the
   * assertion.
   */
  method ProcessCommand(pool: Pool, c: nat, sock: Socket, store: Store, env: Env, quitCode: nat, fuel: nat) returns (out: Outcome)
    requires pool.Valid() && c in pool.liveList && c < |pool.conns|
    requires ValidEnv(env) && ValidQuit(quitCode) && Idle(pool.conns[c], store) && pool.conns[c].state.ReceivingHeader?
    modifies pool, pool.conns[c], pool.conns[c].context, pool.conns[c].allocator, sock, store
    modifies if pool.conns[c].context == null then {} else {pool.conns[c].context.stack}
    ensures pool.Valid() && pool.conns == old(pool.conns)
    ensures var route := RouteOf(old(pool.conns[c].Header()).command, quitCode);
            && RoutedAs(route, out)
            && (route.ToSnapshotPull? || route.ToDataFetch? ==> unchanged(pool.conns[c]))
            && (route.ToQuit? ==> pool.conns[c].Zeroed() && pool.freeList == [c] + old(pool.freeList) && c !in pool.liveList)
            && (!route.ToQuit? ==> unchanged(pool))
    ensures out == Return(0) ==> Idle(pool.conns[c], store)
    ensures out.Unfinished? ==> out.marker == "FETCHING_FILE"
  {
    var conn := pool.conns[c];
    var route := RouteOf(conn.Header().command, quitCode);
    match route
    case ToSnapshotPush =>
      out := HandleSnapshotPush(conn, sock, store, env, fuel);
    case ToSnapshotPull =>
      out := Return(0);
    case ToDataFetch =>
      out := Return(0);
    case ToQuit =>
      pool.Free(c);
      assert c !in pool.liveList;
      out := Return(1);
    case Garbled =>
      out := Outcome.Fatal("Garbled command field.");
  }

  /** What the round's read asks for: the header, for a NEW connection, or else the rest of the transfer in flight. */
  function RoundSize(conn: Connection): nat
    reads conn
  {
    if conn.state.New? then HEADER_SIZE else conn.size
  }

  /** The header once the round's read has landed `data`: only a read into the header changes it. */
  function HeaderAfter(conn: Connection, data: seq<Byte>): (h: seq<Byte>)
    requires conn.state.New? || conn.ptr.HeaderBuf? ==> conn.offset + |data| <= |conn.header|
    reads conn
    ensures |h| == |conn.header|
  {
    if conn.state.New? || conn.ptr.HeaderBuf? then Place(conn.header, conn.offset, data) else conn.header
  }

  /** The NEW case of `scas_connection_iterate`: the transfer becomes the 16-byte header, and the connection waits for it. */
  method BeginRound(conn: Connection, store: Store)
    requires Idle(conn, store)
    modifies conn
    ensures Idle(conn, store) && conn.state.ReceivingHeader?
    ensures conn.size == old(RoundSize(conn)) && conn.ptr == if old(conn.state).New? then HeaderBuf else old(conn.ptr)
    ensures conn.offset == old(conn.offset) && conn.header == old(conn.header)
    ensures conn.context == old(conn.context) && conn.allocator == old(conn.allocator)
  {
    if conn.state.New? {
      conn.ptr, conn.size := HeaderBuf, HEADER_SIZE;
      conn.state := ReceivingHeader;
    }
  }

  /** The round's read stays inside its buffer. */
  predicate RoundFits(conn: Connection)
    reads conn
  {
    conn.offset <= RoundSize(conn) && (conn.state.New? || conn.ptr.HeaderBuf? ==> RoundSize(conn) <= |conn.header|)
  }

  /** What the socket answers to the round's read. */
  function RoundAnswer(conn: Connection, sock: Socket): (a: (OpResult, seq<Byte>))
    requires RoundFits(conn)
    reads conn, sock
    ensures a.0.Moved? ==> a.0.count == |a.1| <= RoundSize(conn) - conn.offset
  {
    sock.ReadAnswer(RoundSize(conn) - conn.offset)
  }

  /** The bookkeeping of the round's read: the new offset and the return value, or the failed assertion. */
  function RoundTransfer(conn: Connection, sock: Socket): Status<(nat, int)>
    requires RoundFits(conn)
    reads conn, sock
  {
    Transfer(conn.offset, RoundSize(conn), RoundAnswer(conn, sock).0)
  }

  /** The header after the round's read. */
  function RoundHeader(conn: Connection, sock: Socket): (h: seq<Byte>)
    requires RoundFits(conn)
    reads conn, sock
    ensures |h| == |conn.header|
  {
    HeaderAfter(conn, RoundAnswer(conn, sock).1)
  }

  /**
   * The first half of `scas_connection_iterate`: a NEW connection starts
   * receiving its command header, and the pending transfer takes what the
   * socket has.
   */
  method ReceiveCommand(conn: Connection, sock: Socket, store: Store) returns (rc: Status<int>)
    requires Idle(conn, store)
    modifies conn, conn.context, sock, store
    ensures conn.state.ReceivingHeader? && conn.context == old(conn.context) && conn.allocator == old(conn.allocator)
    ensures conn.context != null ==> conn.context.stack == old(conn.context.stack)
    ensures rc.Ok? ==> Idle(conn, store)
    ensures var t := old(RoundTransfer(conn, sock));
            && (rc.Abort? <==> t.Abort?)
            && (t.Ok? ==> rc == Ok(t.value.1) && conn.offset == t.value.0)
            && conn.header == old(RoundHeader(conn, sock))
    ensures conn.size == old(RoundSize(conn)) && conn.ptr == if old(conn.state).New? then HeaderBuf else old(conn.ptr)
  {
    ghost var answer := RoundAnswer(conn, sock);
    ghost var after := RoundHeader(conn, sock);
    BeginRound(conn, store);
    assert RoundAnswer(conn, sock) == answer;
    assert RoundHeader(conn, sock) == after;
    rc := ContinueRound(conn, sock, store);
  }

  /** RECEIVING_HEADER: one read continues the transfer in flight, whatever buffer it targets. */
  method ContinueRound(conn: Connection, sock: Socket, store: Store) returns (rc: Status<int>)
    requires Idle(conn, store) && conn.state.ReceivingHeader?
    modifies conn, conn.context, sock, store
    ensures conn.state.ReceivingHeader? && conn.context == old(conn.context) && conn.allocator == old(conn.allocator)
    ensures conn.context != null ==> conn.context.stack == old(conn.context.stack)
    ensures rc.Ok? ==> Idle(conn, store)
    ensures var t := old(RoundTransfer(conn, sock));
            && (rc.Abort? <==> t.Abort?)
            && (t.Ok? ==> rc == Ok(t.value.1) && conn.offset == t.value.0)
            && conn.header == old(RoundHeader(conn, sock))
    ensures conn.size == old(conn.size) && conn.ptr == old(conn.ptr)
  {
    assert sock.ReadAnswer(conn.size - conn.offset) == RoundAnswer(conn, sock);
    if conn.ptr.HeaderBuf? {
      assert conn.Buffer(store) == conn.header;
      rc := conn.Read(sock, store);
      assert conn.Buffer(store) == conn.header;
    } else {
      rc := conn.Read(sock, store);
    }
  }

  /**
   * `scas_connection_iterate`: once the pending transfer is complete, the
   * command in the header is run.
   */
  method Iterate(pool: Pool, c: nat, sock: Socket, store: Store, env: Env, quitCode: nat, fuel: nat) returns (out: Outcome)
    requires pool.Valid() && c in pool.liveList && c < |pool.conns|
    requires ValidEnv(env) && ValidQuit(quitCode) && Idle(pool.conns[c], store)
    modifies pool, pool.conns[c], pool.conns[c].context, pool.conns[c].allocator, sock, store
    modifies if pool.conns[c].context == null then {} else {pool.conns[c].context.stack}
    ensures pool.Valid() && pool.conns == old(pool.conns)
    ensures var t := old(RoundTransfer(pool.conns[c], sock));
            && (t.Abort? ==> out.Fatal?)
            && (t.Ok? && t.value.1 != 0 ==>
                  && out == Return(0) && pool.conns[c].state.ReceivingHeader? && pool.conns[c].offset == t.value.0
                  && pool.conns[c].header == old(RoundHeader(pool.conns[c], sock)))
            && (t.Ok? && t.value.1 == 0 ==> RoutedAs(RouteOf(DecodeHeader(old(RoundHeader(pool.conns[c], sock))).command, quitCode), out))
    ensures out == Return(1) ==> pool.conns[c].Zeroed() && pool.freeList == [c] + old(pool.freeList) && c !in pool.liveList
    ensures out != Return(1) ==> unchanged(pool)
    ensures out == Return(0) ==> Idle(pool.conns[c], store)
    ensures out.Unfinished? ==> out.marker == "FETCHING_FILE"
  {
    var conn := pool.conns[c];
    ghost var t := RoundTransfer(conn, sock);
    ghost var after := RoundHeader(conn, sock);
    ghost var route := RouteOf(DecodeHeader(after).command, quitCode);
    var rc := ReceiveCommand(conn, sock, store);
    if rc.Abort? {
      return Outcome.Fatal(rc.reason);
    }
    if rc.value != 0 {
      return Return(0);
    }
    assert RouteOf(conn.Header().command, quitCode) == route;
    out := ProcessCommand(pool, c, sock, store, env, quitCode, fuel);
    assert RoutedAs(route, out);
  }

  /** Every record of the pool between rounds. */
  ghost predicate AllIdle(pool: Pool, store: Store)
    reads pool, set k | 0 <= k < |pool.conns| :: pool.conns[k]
    reads set k | 0 <= k < |pool.conns| :: pool.conns[k].context
    reads store
  {
    forall k :: 0 <= k < |pool.conns| ==> Idle(pool.conns[k], store)
  }

  /**
   * `scas_handle_connection`: one round of the connection of socket `fd`,
   * found on the live list or allocated for it.
   */
  method HandleConnection(pool: Pool, fd: int, sock: Socket, store: Store, env: Env, quitCode: nat, fuel: nat) returns (out: Outcome, ghost c: nat)
    requires pool.Valid() && store.Valid() && AllIdle(pool, store) && ValidEnv(env) && ValidQuit(quitCode)
    modifies pool, sock, store
    modifies set k | 0 <= k < |pool.conns| :: pool.conns[k]
    modifies set k | 0 <= k < |pool.conns| :: pool.conns[k].context
    modifies set k | 0 <= k < |pool.conns| && pool.conns[k].context != null :: pool.conns[k].context.stack
    modifies set k | 0 <= k < |pool.conns| :: pool.conns[k].allocator
    ensures pool.Valid() && c < |pool.conns| && c != FREE && c != LIVE
    ensures FirstWithFd(old(pool.liveList), old(pool.fds), fd).Some? ==> c == old(pool.liveList)[FirstWithFd(old(pool.liveList), old(pool.fds), fd).value]
    ensures FirstWithFd(old(pool.liveList), old(pool.fds), fd).None? ==> c !in old(pool.liveList)
    ensures out == Return(0) ==> pool.fds[c] == fd && c in pool.liveList && Idle(pool.conns[c], store)
    ensures out == Return(1) ==> pool.conns[c].Zeroed() && c !in pool.liveList
    ensures out.Unfinished? ==> out.marker == "FETCHING_FILE"
  {
    ghost var before := pool.conns;
    var found := pool.Find(fd);
    c := found;
    if found >= |before| {
      ZeroedIsIdle(pool.conns[found], store);
    } else {
      assert pool.conns[found] == before[found];
    }
    out := Iterate(pool, found, sock, store, env, quitCode, fuel);
  }

  // ----- the code as written -----

  /**
   * The NEW case as written: `connection->context = &connection->header`
   * aims the header at the push-context pointer and leaves `ptr` NULL, as
   * a fresh record has it, so the 16-byte transfer it sets up has no
   * buffer behind it.  (The model cannot hold the header in `context`, so
   * it leaves that field as it is.)
   */
  method AsWrittenBeginRound(conn: Connection, store: Store)
    requires Idle(conn, store) && conn.state.New?
    modifies conn
    ensures conn.state.ReceivingHeader? && conn.size == HEADER_SIZE && conn.ptr == NoTarget
    ensures !conn.Fits(store)
  {
    conn.size := HEADER_SIZE;
    conn.state := ReceivingHeader;
  }

  /**
   * After the NEW case as written, the first bytes that arrive make the
   * `read` into NULL fail (EFAULT), which fails the would-block assertion.
   */
  lemma AsWrittenNewHasNoBuffer(conn: Connection, store: Store)
    requires conn.ptr == NoTarget && conn.size == HEADER_SIZE
    ensures !conn.Fits(store)
    ensures conn.offset <= conn.size ==> Transfer(conn.offset, conn.size, Failed).Abort?
  {
  }
}
