/**
 * The wire header of common/scas_packet.h.  Structs are sent raw, in host
 * order; the model fixes the host as little-endian x86-64 (LP64), where
 * `struct scas_header_t` is a u64, a u32 and 4 bytes of padding.
 */
module Packet {
  import opened Hash

  /** sizeof(struct scas_header_t) on LP64. */
  const HEADER_SIZE: nat := 16

  /** `enum scas_command_t`, in declaration order (note the source's own spelling SHAPSHOT). */
  const CMD_SNAPSHOT_LIST: nat := 0
  const CMD_SNAPSHOT_PUSH: nat := 1
  const CMD_SHAPSHOT_PULL: nat := 2
  const CMD_DATA_FETCH: nat := 3
  const CMD_DATA_PUSH: nat := 4

  datatype Header = Header(packetSize: nat, command: nat)

  const ZERO_HEADER: Header := Header(0, 0)

  /** The fields fit their C types (u64 and u32). */
  predicate ValidHeader(h: Header) {
    h.packetSize < Pow256(8) && h.command < Pow256(4)
  }

  function EncodeHeader(h: Header): (s: seq<Byte>)
    ensures |s| == HEADER_SIZE
  {
    EncodeLE(h.packetSize, 8) + EncodeLE(h.command, 4) + [0, 0, 0, 0]
  }

  function DecodeHeader(s: seq<Byte>): (h: Header)
    requires |s| == HEADER_SIZE
    ensures ValidHeader(h)
  {
    Header(DecodeLE(s[0..8]), DecodeLE(s[8..12]))
  }

  /** Reading back a header that was written as raw bytes gives the header. */
  lemma HeaderRoundTrip(h: Header)
    requires ValidHeader(h)
    ensures DecodeHeader(EncodeHeader(h)) == h
  {
    var s := EncodeHeader(h);
    assert s[0..8] == EncodeLE(h.packetSize, 8);
    assert s[8..12] == EncodeLE(h.command, 4);
    DecodeEncodeLE(h.packetSize, 8);
    DecodeEncodeLE(h.command, 4);
  }
}
