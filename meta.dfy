/**
 * Directory objects (common/scas_meta.h).  A directory is itself a CAS
 * object; its bytes are laid out as
 *
 *   offset                                    data
 *   0                                         struct scas_directory_meta_t
 *   DIR_META_SIZE                             n file metas
 *   DIR_META_SIZE + n * FILE_META_SIZE        n u32 name offsets
 *   DIR_META_SIZE + n * (FILE_META_SIZE + 4)  the names, each NUL-terminated
 *
 * Sizes are those of the LP64 ABI: `struct scas_directory_meta_t` is a u32
 * count and a 20-byte parent hash (24 bytes); `struct scas_file_meta_t` is
 * two u64s, a u32 of flags and a 20-byte content hash (40 bytes).
 */
module Meta {
  import opened Hash
  import Arithmetic

  /** `flag_is_directory = 1 << 0`. */
  const FLAG_IS_DIRECTORY: bv32 := 1

  const FILE_META_SIZE: nat := 40
  const DIR_META_SIZE: nat := 24
  const NAME_INDEX_SIZE: nat := 4

  /** `struct scas_file_meta_t`: one entry (file or subdirectory) of a directory. */
  datatype FileMeta = FileMeta(timestamp: nat, size: nat, flags: nat, content: Hash)

  /** One directory object, before it is laid out as bytes. */
  datatype Directory = Directory(parent: Hash, entries: seq<FileMeta>, names: seq<seq<Byte>>)

  /** `scas_is_directory`: bit 0 of the flags. */
  function IsDirectory(flags: bv32): (r: bool)
    ensures r <==> flags % 2 == 1
  {
    flags & FLAG_IS_DIRECTORY != 0
  }

  /** The fields fit their C types. */
  predicate ValidFileMeta(m: FileMeta) {
    m.timestamp < Pow256(8) && m.size < Pow256(8) && m.flags < Pow256(4)
  }

  /** The flags of a decoded meta, as the u32 the code tests. */
  function Flags(m: FileMeta): bv32
    requires m.flags < Pow256(4)
  {
    m.flags as bv32
  }

  function EncodeFileMeta(m: FileMeta): (s: seq<Byte>)
    ensures |s| == FILE_META_SIZE
  {
    EncodeLE(m.timestamp, 8) + EncodeLE(m.size, 8) + EncodeLE(m.flags, 4) + m.content
  }

  function DecodeFileMeta(s: seq<Byte>): (m: FileMeta)
    requires |s| == FILE_META_SIZE
    ensures ValidFileMeta(m)
  {
    FileMeta(DecodeLE(s[0..8]), DecodeLE(s[8..16]), DecodeLE(s[16..20]), s[20..40])
  }

  lemma FileMetaRoundTrip(m: FileMeta)
    requires ValidFileMeta(m)
    ensures DecodeFileMeta(EncodeFileMeta(m)) == m
  {
    var s := EncodeFileMeta(m);
    assert s[0..8] == EncodeLE(m.timestamp, 8);
    assert s[8..16] == EncodeLE(m.size, 8);
    assert s[16..20] == EncodeLE(m.flags, 4);
    assert s[20..40] == m.content;
    DecodeEncodeLE(m.timestamp, 8);
    DecodeEncodeLE(m.size, 8);
    DecodeEncodeLE(m.flags, 4);
  }

  /** The directory flag lives in bit 0 of byte 16 of a laid-out meta. */
  lemma DirectoryFlagByte(m: FileMeta)
    requires ValidFileMeta(m)
    ensures IsDirectory(Flags(m)) <==> EncodeFileMeta(m)[16] % 2 == 1
  {
    var s := EncodeFileMeta(m);
    assert s[16] == EncodeLE(m.flags, 4)[0];
    LowByteLE(m.flags, 4);
    LowBitOfLowByte(m.flags);
    FlagBitZero(m.flags);
  }

  lemma LowBitOfLowByte(x: nat)
    ensures (x % 256) % 2 == x % 2
  {
    var q, r := x / 256, x % 256;
    assert x == 256 * q + r;
    assert x == (128 * q + r / 2) * 2 + r % 2;
    Arithmetic.DivModUnique(x, 2, 128 * q + r / 2, r % 2);
  }

  lemma FlagBitZero(x: nat)
    requires x < Pow256(4)
    ensures IsDirectory(x as bv32) <==> x % 2 == 1
  {
    var b := x as bv32;
    assert (b % 2) as int == x % 2;
  }

  // ----- layout offsets -----

  /** `scas_get_file_meta_base`: the metas start right after the directory header. */
  function FileMetaBase(directory: nat): (r: nat)
  {
    directory + DIR_META_SIZE
  }

  function MetaOffset(i: nat): nat {
    FileMetaBase(0) + i * FILE_META_SIZE
  }

  function IndexOffset(n: nat, i: nat): nat {
    DIR_META_SIZE + n * FILE_META_SIZE + i * NAME_INDEX_SIZE
  }

  function NamesOffset(n: nat): nat {
    DIR_META_SIZE + n * FILE_META_SIZE + n * NAME_INDEX_SIZE
  }

  // ----- writing a directory object -----

  function MetaBlob(entries: seq<FileMeta>): (s: seq<Byte>)
    ensures |s| == |entries| * FILE_META_SIZE
  {
    if |entries| == 0 then [] else EncodeFileMeta(entries[0]) + MetaBlob(entries[1..])
  }

  /** Where name i starts inside the name blob. */
  function NameStart(names: seq<seq<Byte>>, i: nat): nat
    requires i <= |names|
  {
    if i == 0 then 0 else |names[0]| + 1 + NameStart(names[1..], i - 1)
  }

  function NameBlob(names: seq<seq<Byte>>): seq<Byte> {
    if |names| == 0 then [] else names[0] + [0] + NameBlob(names[1..])
  }

  /** The u32 name offsets, the first being `start`. */
  function IndexBlob(names: seq<seq<Byte>>, start: nat): (s: seq<Byte>)
    ensures |s| == |names| * NAME_INDEX_SIZE
  {
    if |names| == 0 then [] else EncodeLE(start, 4) + IndexBlob(names[1..], start + |names[0]| + 1)
  }

  predicate NulFree(name: seq<Byte>) {
    forall k :: 0 <= k < |name| ==> name[k] != 0
  }

  /** What a writer must respect for the layout to be read back. */
  predicate WellFormed(d: Directory) {
    && |d.entries| == |d.names|
    && |d.entries| < Pow256(4)
    && (forall i :: 0 <= i < |d.entries| ==> ValidFileMeta(d.entries[i]))
    && (forall i :: 0 <= i < |d.names| ==> NulFree(d.names[i]))
    && |NameBlob(d.names)| < Pow256(4)
  }

  function EncodeDirectory(d: Directory): (blob: seq<Byte>)
    requires WellFormed(d)
  {
    EncodeLE(|d.entries|, 4) + d.parent + MetaBlob(d.entries) + IndexBlob(d.names, 0) + NameBlob(d.names)
  }

  // ----- reading a directory object -----

  function NumEntries(blob: seq<Byte>): nat
    requires |blob| >= DIR_META_SIZE
  {
    DecodeLE(blob[0..4])
  }

  function Parent(blob: seq<Byte>): Hash
    requires |blob| >= DIR_META_SIZE
  {
    blob[4..24]
  }

  function MetaAt(blob: seq<Byte>, i: nat): FileMeta
    requires MetaOffset(i) + FILE_META_SIZE <= |blob|
  {
    DecodeFileMeta(blob[MetaOffset(i)..MetaOffset(i) + FILE_META_SIZE])
  }

  function NameIndexAt(blob: seq<Byte>, n: nat, i: nat): nat
    requires IndexOffset(n, i) + NAME_INDEX_SIZE <= |blob|
  {
    DecodeLE(blob[IndexOffset(n, i)..IndexOffset(n, i) + NAME_INDEX_SIZE])
  }

  /** The bytes of a C string: everything before the first NUL. */
  function CString(s: seq<Byte>): (r: seq<Byte>)
    ensures |r| <= |s|
  {
    if |s| == 0 || s[0] == 0 then [] else [s[0]] + CString(s[1..])
  }

  /** Entry i's name: the NUL-terminated string at `names[indices[i]]`. */
  function NameAt(blob: seq<Byte>, n: nat, i: nat): seq<Byte>
    requires IndexOffset(n, i) + NAME_INDEX_SIZE <= |blob|
    requires NamesOffset(n) + NameIndexAt(blob, n, i) <= |blob|
  {
    CString(blob[NamesOffset(n) + NameIndexAt(blob, n, i)..])
  }

  // ----- the layout round trip -----

  lemma {:induction false} MetaBlobAt(entries: seq<FileMeta>, i: nat)
    requires i < |entries|
    ensures MetaBlob(entries)[i * FILE_META_SIZE..(i + 1) * FILE_META_SIZE] == EncodeFileMeta(entries[i])
  {
    var s := MetaBlob(entries);
    if i > 0 {
      MetaBlobAt(entries[1..], i - 1);
      var tail := MetaBlob(entries[1..]);
      assert s[FILE_META_SIZE..] == tail;
      Window(s, FILE_META_SIZE, |s|, (i - 1) * FILE_META_SIZE, i * FILE_META_SIZE);
    } else {
      assert s == EncodeFileMeta(entries[0]) + MetaBlob(entries[1..]);
    }
  }

  lemma {:induction false} IndexBlobAt(names: seq<seq<Byte>>, start: nat, i: nat)
    requires i < |names|
    ensures IndexBlob(names, start)[i * NAME_INDEX_SIZE..(i + 1) * NAME_INDEX_SIZE]
         == EncodeLE(start + NameStart(names, i), 4)
  {
    var s := IndexBlob(names, start);
    if i > 0 {
      IndexBlobAt(names[1..], start + |names[0]| + 1, i - 1);
      var tail := IndexBlob(names[1..], start + |names[0]| + 1);
      assert s[NAME_INDEX_SIZE..] == tail;
      Window(s, NAME_INDEX_SIZE, |s|, (i - 1) * NAME_INDEX_SIZE, i * NAME_INDEX_SIZE);
    } else {
      assert s == EncodeLE(start, 4) + IndexBlob(names[1..], start + |names[0]| + 1);
    }
  }

  lemma {:induction false} NameBlobAt(names: seq<seq<Byte>>, i: nat)
    requires i < |names|
    ensures NameStart(names, i) + |names[i]| + 1 <= |NameBlob(names)|
    ensures NameBlob(names)[NameStart(names, i)..][..|names[i]| + 1] == names[i] + [0]
  {
    if i > 0 {
      NameBlobAt(names[1..], i - 1);
      assert NameBlob(names)[|names[0]| + 1..] == NameBlob(names[1..]);
    }
  }

  lemma {:induction false} CStringOfTerminated(name: seq<Byte>, rest: seq<Byte>)
    requires NulFree(name)
    ensures CString(name + [0] + rest) == name
  {
    if |name| > 0 {
      assert (name + [0] + rest)[1..] == name[1..] + [0] + rest;
      CStringOfTerminated(name[1..], rest);
    }
  }

  /** A window of a window is a window of the whole. */
  lemma Window(s: seq<Byte>, a: nat, b: nat, c: nat, d: nat)
    requires a <= b <= |s| && c <= d <= b - a
    ensures s[a..b][c..d] == s[a + c..a + d]
  {
    var w := s[a..b];
    assert forall k :: 0 <= k < d - c ==> w[c..d][k] == w[c + k] == s[a + c + k];
  }

  lemma EncodeDirectorySplit(d: Directory)
    requires WellFormed(d)
    ensures var blob := EncodeDirectory(d);
      var n := |d.entries|;
      && |blob| == NamesOffset(n) + |NameBlob(d.names)|
      && blob[0..4] == EncodeLE(n, 4)
      && blob[4..24] == d.parent
      && blob[DIR_META_SIZE..IndexOffset(n, 0)] == MetaBlob(d.entries)
      && blob[IndexOffset(n, 0)..NamesOffset(n)] == IndexBlob(d.names, 0)
      && blob[NamesOffset(n)..] == NameBlob(d.names)
  {
  }

  /** A laid-out directory starts with its entry count and its parent. */
  lemma DirectoryHeaderRoundTrip(d: Directory)
    requires WellFormed(d)
    ensures var blob := EncodeDirectory(d);
      && |blob| >= NamesOffset(|d.entries|)
      && NumEntries(blob) == |d.entries|
      && Parent(blob) == d.parent
  {
    EncodeDirectorySplit(d);
    DecodeEncodeLE(|d.entries|, 4);
  }

  /** Meta i of a laid-out directory sits at MetaOffset(i) and reads back as written. */
  lemma DirectoryMetaRoundTrip(d: Directory, i: nat)
    requires WellFormed(d) && i < |d.entries|
    ensures var blob := EncodeDirectory(d);
      && MetaOffset(i) + FILE_META_SIZE <= |blob|
      && MetaAt(blob, i) == d.entries[i]
  {
    var blob := EncodeDirectory(d);
    var n := |d.entries|;
    EncodeDirectorySplit(d);
    MetaBlobAt(d.entries, i);
    Window(blob, DIR_META_SIZE, IndexOffset(n, 0), i * FILE_META_SIZE, (i + 1) * FILE_META_SIZE);
    FileMetaRoundTrip(d.entries[i]);
  }

  /** Name offset i reads back as the start of name i in the name blob. */
  lemma DirectoryNameIndexRoundTrip(d: Directory, i: nat)
    requires WellFormed(d) && i < |d.entries|
    ensures var blob := EncodeDirectory(d);
      var n := |d.entries|;
      && IndexOffset(n, i) + NAME_INDEX_SIZE <= |blob|
      && NameIndexAt(blob, n, i) == NameStart(d.names, i)
  {
    var blob := EncodeDirectory(d);
    var n := |d.entries|;
    EncodeDirectorySplit(d);
    NameBlobAt(d.names, i);
    IndexRead(blob, IndexOffset(n, 0), NamesOffset(n), d.names, i);
  }

  /** Offset i of a name index laid out at `lo` reads back as the start of name i. */
  lemma IndexRead(blob: seq<Byte>, lo: nat, hi: nat, names: seq<seq<Byte>>, i: nat)
    requires lo <= hi <= |blob| && blob[lo..hi] == IndexBlob(names, 0) && i < |names|
    requires NameStart(names, i) < Pow256(4)
    ensures lo + i * NAME_INDEX_SIZE + NAME_INDEX_SIZE <= hi
    ensures DecodeLE(blob[lo + i * NAME_INDEX_SIZE..lo + i * NAME_INDEX_SIZE + NAME_INDEX_SIZE]) == NameStart(names, i)
  {
    IndexBlobAt(names, 0, i);
    Window(blob, lo, hi, i * NAME_INDEX_SIZE, (i + 1) * NAME_INDEX_SIZE);
    DecodeEncodeLE(NameStart(names, i), 4);
  }

  /** Entry i's name, read through its offset, is the name that was written. */
  lemma DirectoryNameRoundTrip(d: Directory, i: nat)
    requires WellFormed(d) && i < |d.entries|
    ensures var blob := EncodeDirectory(d);
      var n := |d.entries|;
      && IndexOffset(n, i) + NAME_INDEX_SIZE <= |blob|
      && NamesOffset(n) + NameIndexAt(blob, n, i) <= |blob|
      && NameAt(blob, n, i) == d.names[i]
  {
    var blob := EncodeDirectory(d);
    var n := |d.entries|;
    DirectoryNameIndexRoundTrip(d, i);
    EncodeDirectorySplit(d);
    NameBlobAt(d.names, i);
    var start := NameStart(d.names, i);
    var names := NameBlob(d.names);
    assert blob[NamesOffset(n) + start..] == names[start..];
    var tail := names[start..];
    assert tail == d.names[i] + [0] + tail[|d.names[i]| + 1..];
    CStringOfTerminated(d.names[i], tail[|d.names[i]| + 1..]);
  }
}
