/**
 * The pure half of server/scas_cas.c: the sorted index of cached objects,
 * the search for an insertion point, the shift that opens a slot, the
 * `bsearch` lookup, and the encoder that turns a fingerprint into a file
 * name under `cache/`.
 */
module CasIndex {
  import opened Wrappers
  import opened Hash

  /**
   * `struct scas_cas_entry_t`.  `mem` is the read-only mapping of the
   * object's file (None for NULL).  The header declares no `ref_count`, but
   * server/scas_cas.c uses one; the model follows the code.
   */
  datatype Entry = Entry(hash: Hash, mem: Option<seq<Byte>>, fd: int, size: nat, id: int, refCount: int)

  /** A zero-filled entry, as `memset` and the zero pages of `mmap` leave it. */
  const ZERO_ENTRY: Entry := Entry(ZERO_HASH, None, 0, 0, 0, 0)

  /** The index is strictly increasing in `memcmp` order of the fingerprints. */
  predicate Sorted(index: seq<Entry>) {
    forall i, j :: 0 <= i < j < |index| ==> Less(index[i].hash, index[j].hash)
  }

  predicate Indexed(index: seq<Entry>, h: Hash) {
    exists i :: 0 <= i < |index| && index[i].hash == h
  }

  /** In a sorted index a fingerprint sits at one position at most. */
  lemma SortedUnique(index: seq<Entry>, p: nat, q: nat)
    requires Sorted(index) && p < |index| && q < |index| && index[p].hash == index[q].hash
    ensures p == q
  {
  }

  /** `scas_cas_cache_comparator`: `memcmp` of the two fingerprints. */
  function Comparator(a: Entry, b: Entry): (r: int)
    ensures r == 0 <==> a.hash == b.hash
    ensures r < 0 <==> Less(a.hash, b.hash)
    ensures r > 0 <==> Less(b.hash, a.hash)
  {
    MemcmpAntisymmetric(a.hash, b.hash);
    Memcmp(a.hash, b.hash)
  }

  /**
   * `scas_cas_cache_find`: `bsearch` over `[cache, cache_end)` with the
   * comparator.  The result is the position of the entry holding `h`.
   */
  method CacheFind(index: seq<Entry>, h: Hash) returns (r: Option<nat>)
    requires Sorted(index)
    ensures r.Some? ==> r.value < |index| && index[r.value].hash == h
    ensures r.None? <==> !Indexed(index, h)
  {
    var key := Entry(h, None, 0, 0, 0, 0);
    var lo, hi := 0, |index|;
    while lo < hi
      invariant 0 <= lo <= hi <= |index|
      invariant forall i :: 0 <= i < lo ==> Less(index[i].hash, h)
      invariant forall i :: hi <= i < |index| ==> Less(h, index[i].hash)
      decreases hi - lo
    {
      var mid := (lo + hi) / 2;
      var c := Comparator(key, index[mid]);
      if c < 0 {
        hi := mid;
        forall i | mid <= i < |index| ensures Less(h, index[i].hash) {
          if i > mid { LessTransitive(h, index[mid].hash, index[i].hash); }
        }
      } else if c > 0 {
        forall i | 0 <= i <= mid ensures Less(index[i].hash, h) {
          if i < mid { LessTransitive(index[i].hash, index[mid].hash, h); }
        }
        lo := mid + 1;
      } else {
        return Some(mid);
      }
    }
    forall i | 0 <= i < |index| ensures index[i].hash != h {
      if i < lo { MemcmpAntisymmetric(index[i].hash, h); }
      else { MemcmpAntisymmetric(h, index[i].hash); }
    }
    return None;
  }

  // ----- the insertion point -----

  /**
   * `scas_cas_find_destination_entry` as evidently intended: a binary
   * search of `[lo, hi)` for the first entry above `h`.  A fingerprint
   * that is already indexed is the source's abort (`None`).
   */
  function FindDestination(index: seq<Entry>, h: Hash, lo: nat, hi: nat): (r: Option<nat>)
    requires Sorted(index) && lo <= hi <= |index|
    requires forall i :: 0 <= i < lo ==> Less(index[i].hash, h)
    requires forall i :: hi <= i < |index| ==> Less(h, index[i].hash)
    ensures r.None? <==> Indexed(index, h)
    ensures r.Some? ==> lo <= r.value <= hi
    ensures r.Some? ==> forall i :: 0 <= i < r.value ==> Less(index[i].hash, h)
    ensures r.Some? ==> forall i :: r.value <= i < |index| ==> Less(h, index[i].hash)
    decreases hi - lo
  {
    if lo == hi then
      assert !Indexed(index, h) by {
        forall i | 0 <= i < |index| ensures index[i].hash != h {
          if i < lo { assert Less(index[i].hash, h); }
          else { assert Less(h, index[i].hash); }
        }
      }
      Some(lo)
    else
      var half := (hi - lo) / 2;
      var result := Memcmp(index[lo + half].hash, h);
      if result < 0 then
        assert forall i :: 0 <= i < lo + half + 1 ==> Less(index[i].hash, h) by {
          forall i | 0 <= i < lo + half + 1 ensures Less(index[i].hash, h) {
            if lo <= i < lo + half { LessTransitive(index[i].hash, index[lo + half].hash, h); }
          }
        }
        FindDestination(index, h, lo + half + 1, hi)
      else if result == 0 then
        None
      else
        assert forall i :: lo + half <= i < |index| ==> Less(h, index[i].hash) by {
          forall i | lo + half <= i < |index| ensures Less(h, index[i].hash) {
            MemcmpAntisymmetric(index[lo + half].hash, h);
            if lo + half < i < hi { LessTransitive(h, index[lo + half].hash, index[i].hash); }
          }
        }
        FindDestination(index, h, lo, lo + half)
  }

  /** The insertion point for a fingerprint in the whole index. */
  function Destination(index: seq<Entry>, h: Hash): (r: Option<nat>)
    requires Sorted(index)
    ensures r.None? <==> Indexed(index, h)
    ensures r.Some? ==> r.value <= |index|
    ensures r.Some? ==> Sorted(InsertAt(index, r.value, Entry(h, None, 0, 0, 0, 0)))
    ensures r.Some? ==> forall i :: 0 <= i < r.value ==> Less(index[i].hash, h)
    ensures r.Some? ==> forall i :: r.value <= i < |index| ==> Less(h, index[i].hash)
  {
    var r := FindDestination(index, h, 0, |index|);
    if r.Some? then
      InsertAtSorted(index, r.value, Entry(h, None, 0, 0, 0, 0));
      r
    else r
  }

  /** One call of `scas_cas_find_destination_entry` as written. */
  datatype Step = Found(position: nat) | Recurse(lo: nat, hi: nat) | Fatal

  /**
   * The body of `scas_cas_find_destination_entry` as written: it goes right
   * only when `memcmp` returns exactly 1, goes right when the midpoint is
   * above the key, and keeps the midpoint in the right half.
   */
  function AsWrittenFindStep(index: seq<Entry>, h: Hash, lo: nat, hi: nat): Step
    requires lo <= hi <= |index|
  {
    if lo == hi then Found(lo)
    else
      var half := (hi - lo) / 2;
      var result := Memcmp(index[lo + half].hash, h);
      if result == 1 then Recurse(lo + half, hi)
      else if result == 0 then Fatal
      else Recurse(lo, lo + half)
  }

  /** The as-written search run for at most `fuel` calls. */
  function AsWrittenFind(index: seq<Entry>, h: Hash, lo: nat, hi: nat, fuel: nat): Option<Step>
    requires lo <= hi <= |index|
    decreases fuel
  {
    if fuel == 0 then None
    else match AsWrittenFindStep(index, h, lo, hi)
      case Recurse(lo', hi') =>
        if lo' <= hi' <= |index| then AsWrittenFind(index, h, lo', hi', fuel - 1) else None
      case other => Some(other)
  }

  const ONES: Hash := seq(20, _ => 1)
  const TWOS: Hash := seq(20, _ => 2)

  /**
   * With one entry below the key (`memcmp` is -1, not 1) the as-written
   * search answers position 0, and inserting there puts the key before a
   * smaller fingerprint.
   */
  lemma AsWrittenFindMisorders()
    ensures AsWrittenFind([Entry(ONES, None, 0, 0, 0, 0)], TWOS, 0, 1, 2) == Some(Found(0))
    ensures !Sorted(InsertAt([Entry(ONES, None, 0, 0, 0, 0)], 0, Entry(TWOS, None, 0, 0, 0, 0)))
  {
    assert Memcmp(ONES, TWOS) == -1;
    var r := InsertAt([Entry(ONES, None, 0, 0, 0, 0)], 0, Entry(TWOS, None, 0, 0, 0, 0));
    assert r[0].hash == TWOS && r[1].hash == ONES;
    assert Memcmp(TWOS, ONES) == 1;
  }

  /**
   * With one entry exactly one above the key in its first byte, the
   * as-written search calls itself with the same range: it never returns.
   */
  lemma AsWrittenFindDiverges(fuel: nat)
    ensures AsWrittenFindStep([Entry(TWOS, None, 0, 0, 0, 0)], ONES, 0, 1) == Recurse(0, 1)
    ensures AsWrittenFind([Entry(TWOS, None, 0, 0, 0, 0)], ONES, 0, 1, fuel) == None
  {
    assert Memcmp(TWOS, ONES) == 1;
    if fuel > 0 {
      AsWrittenFindDiverges(fuel - 1);
    }
  }

  // ----- opening the slot -----

  /** The index after the shift as evidently intended: `e` lands at `p`, everything from `p` moves up one. */
  function InsertAt(index: seq<Entry>, p: nat, e: Entry): (r: seq<Entry>)
    requires p <= |index|
    ensures |r| == |index| + 1
  {
    index[..p] + [e] + index[p..]
  }

  lemma InsertAtContents(index: seq<Entry>, p: nat, e: Entry)
    requires p <= |index|
    ensures multiset(InsertAt(index, p, e)) == multiset(index) + multiset{e}
    ensures InsertAt(index, p, e)[p] == e
    ensures forall i :: 0 <= i < p ==> InsertAt(index, p, e)[i] == index[i]
    ensures forall i :: p < i <= |index| ==> InsertAt(index, p, e)[i] == index[i - 1]
  {
    assert index == index[..p] + index[p..];
  }

  /** Inserting at the position the search reports keeps the index sorted. */
  lemma InsertAtSorted(index: seq<Entry>, p: nat, e: Entry)
    requires Sorted(index) && p <= |index|
    requires forall i :: 0 <= i < p ==> Less(index[i].hash, e.hash)
    requires forall i :: p <= i < |index| ==> Less(e.hash, index[i].hash)
    ensures Sorted(InsertAt(index, p, e))
  {
    var r := InsertAt(index, p, e);
    forall i, j | 0 <= i < j < |r| ensures Less(r[i].hash, r[j].hash) {
      InsertAtContents(index, p, e);
      if j < p || i > p {
      } else if i < p && j > p {
        LessTransitive(r[i].hash, e.hash, r[j].hash);
      }
    }
  }

  /**
   * The `memmove(entry, entry + 1, ...)` of the source moves entries down
   * instead of up: `[p + 1, end]` is copied onto `[p, end)`, which reads the
   * slot `beyond` at `cache_end` and overwrites the entry at `p`.
   */
  function AsWrittenShift(index: seq<Entry>, p: nat, beyond: Entry): (r: seq<Entry>)
    requires p <= |index|
  {
    if p == |index| then index + [beyond]
    else index[..p] + index[p + 1..] + [beyond] + [beyond]
  }

  /** The as-written shift loses the entry that sat at the insertion point. */
  lemma AsWrittenShiftLoses(index: seq<Entry>, p: nat, beyond: Entry)
    requires Sorted(index) && p < |index| && beyond.hash != index[p].hash
    ensures |AsWrittenShift(index, p, beyond)| == |index| + 1
    ensures !Indexed(AsWrittenShift(index, p, beyond), index[p].hash)
  {
    var r := AsWrittenShift(index, p, beyond);
    forall k | 0 <= k < |r| ensures r[k].hash != index[p].hash {
      if k < p {
        MemcmpAntisymmetric(index[k].hash, index[p].hash);
      } else if k < |index| - 1 {
        assert r[k] == index[k + 1];
        MemcmpAntisymmetric(index[p].hash, index[k + 1].hash);
      }
    }
  }

  // ----- the file name of an object -----

  const CACHE_ROOT: string := "cache/"

  /** `FILENAME_SIZE`: two characters per fingerprint byte plus `sizeof(CACHE_ROOT)` (which counts its NUL). */
  const FILENAME_SIZE: nat := 2 * HASH_SIZE + |CACHE_ROOT| + 1

  /** The characters the encoder writes: 40 hex digits and a NUL. */
  const NAME_LENGTH: nat := 2 * HASH_SIZE + 1

  const NUL: char := 0 as char

  /** `hex_chars[n]`: the lowercase hex digit of a nibble. */
  function HexDigit(n: nat): char
    requires n < 16
  {
    if n < 10 then ('0' as int + n) as char else ('a' as int + n - 10) as char
  }

  lemma HexDigitInjective(x: nat, y: nat)
    requires x < 16 && y < 16 && HexDigit(x) == HexDigit(y)
    ensures x == y
  {
  }

  /** Two hex digits per byte, high nibble first. */
  function HexName(s: seq<Byte>): (r: string)
    ensures |r| == 2 * |s|
  {
    if s == [] then [] else [HexDigit(s[0] / 16), HexDigit(s[0] % 16)] + HexName(s[1..])
  }

  lemma {:induction false} HexNameAppend(s: seq<Byte>, b: Byte)
    ensures HexName(s + [b]) == HexName(s) + [HexDigit(b / 16), HexDigit(b % 16)]
  {
    if s != [] {
      assert (s + [b])[1..] == s[1..] + [b];
      HexNameAppend(s[1..], b);
    }
  }

  lemma HexNameHead(s: seq<Byte>)
    requires s != []
    ensures HexName(s)[0] == HexDigit(s[0] / 16) && HexName(s)[1] == HexDigit(s[0] % 16)
    ensures HexName(s)[2..] == HexName(s[1..])
  {
  }

  lemma NibblesDetermineByte(x: Byte, y: Byte)
    requires x / 16 == y / 16 && x % 16 == y % 16
    ensures x == y
  {
  }

  /** Distinct fingerprints get distinct names. */
  lemma {:induction false} HexNameInjective(a: seq<Byte>, b: seq<Byte>)
    requires |a| == |b| && HexName(a) == HexName(b)
    ensures a == b
  {
    if a != [] {
      HexNameHead(a);
      HexNameHead(b);
      HexDigitInjective(a[0] / 16, b[0] / 16);
      HexDigitInjective(a[0] % 16, b[0] % 16);
      NibblesDetermineByte(a[0], b[0]);
      HexNameInjective(a[1..], b[1..]);
      assert a == [a[0]] + a[1..] && b == [b[0]] + b[1..];
    }
  }

  /** The `/` branch of the encoder never fires: names hold hex digits only. */
  lemma {:induction false} HexNameHasNoSeparator(s: seq<Byte>)
    ensures '/' !in HexName(s) && NUL !in HexName(s)
  {
    if s != [] {
      HexNameHasNoSeparator(s[1..]);
    }
  }

  /** The path of an object's file: `cache/` followed by its hex name. */
  function Path(h: Hash): string {
    CACHE_ROOT + HexName(h)
  }

  lemma PathInjective(a: Hash, b: Hash)
    requires Path(a) == Path(b)
    ensures a == b
  {
    assert Path(a)[|CACHE_ROOT|..] == HexName(a);
    assert Path(b)[|CACHE_ROOT|..] == HexName(b);
    HexNameInjective(a, b);
  }

  /** The characters of a C string: everything before the first NUL. */
  function CStr(s: string): (r: string)
    ensures |r| <= |s| && NUL !in r
  {
    if |s| == 0 || s[0] == NUL then [] else [s[0]] + CStr(s[1..])
  }

  lemma {:induction false} CStrOfTerminated(name: string, rest: string)
    requires NUL !in name
    ensures CStr(name + [NUL] + rest) == name
  {
    if name != [] {
      assert (name + [NUL] + rest)[1..] == name[1..] + [NUL] + rest;
      CStrOfTerminated(name[1..], rest);
    }
  }

  /**
   * `scas_cas_create_filename`: writes the name of `h` into
   * `filename[start..]` and asserts that the characters written fit
   * `filenameLength`.  The caller's buffer must hold them.
   */
  method CreateFilename(filename: array<char>, start: nat, filenameLength: nat, h: Hash) returns (r: Status<nat>)
    requires start + NAME_LENGTH <= filename.Length
    modifies filename
    ensures filename[..start] == old(filename[..start])
    ensures filename[start..start + NAME_LENGTH] == HexName(h) + [NUL]
    ensures filename[start + NAME_LENGTH..] == old(filename[start + NAME_LENGTH..])
    ensures r == if NAME_LENGTH <= filenameLength then Ok(NAME_LENGTH) else Abort("idx <= filename_length")
  {
    var idx := 0;
    var i := 0;
    ghost var written: string := [];
    while i < HASH_SIZE
      invariant 0 <= i <= HASH_SIZE && idx == 2 * i
      invariant written == HexName(h[..i])
      invariant forall k :: 0 <= k < start ==> filename[k] == old(filename[k])
      invariant forall k :: start <= k < start + idx ==> filename[k] == written[k - start]
      invariant forall k :: start + idx <= k < filename.Length ==> filename[k] == old(filename[k])
    {
      var c := h[i];
      filename[start + idx] := HexDigit(c / 16);
      idx := idx + 1;
      if idx == 2 {
        assert false;
      }
      filename[start + idx] := HexDigit(c % 16);
      idx := idx + 1;
      assert h[..i + 1] == h[..i] + [c];
      HexNameAppend(h[..i], c);
      written := written + [HexDigit(c / 16), HexDigit(c % 16)];
      i := i + 1;
    }
    assert h[..i] == h;
    filename[start + idx] := NUL;
    idx := idx + 1;
    assert filename[start..start + NAME_LENGTH] == HexName(h) + [NUL];
    if idx <= filenameLength {
      r := Ok(idx);
    } else {
      r := Abort("idx <= filename_length");
    }
  }

  /** `char filename[FILENAME_SIZE] = CACHE_ROOT`: the root, then zeros. */
  function InitialFilename(): (s: string)
    ensures |s| == FILENAME_SIZE
    ensures s[..|CACHE_ROOT|] == CACHE_ROOT
    ensures forall i :: |CACHE_ROOT| <= i < |s| ==> s[i] == NUL
  {
    CACHE_ROOT + seq(FILENAME_SIZE - |CACHE_ROOT|, _ => NUL)
  }

  /**
   * The name as the callers evidently intend it, written over the root's NUL
   * at offset 6, with the 41 characters that remain: the C string is the
   * object's path, and the buffer is filled exactly.
   */
  lemma FilenameFits(h: Hash)
    ensures |CACHE_ROOT| + NAME_LENGTH == FILENAME_SIZE
    ensures CStr(CACHE_ROOT + HexName(h) + [NUL]) == Path(h)
  {
    HexNameHasNoSeparator(h);
    assert NUL !in CACHE_ROOT;
    CStrOfTerminated(Path(h), []);
    assert CACHE_ROOT + HexName(h) + [NUL] == Path(h) + [NUL] + [];
  }

  /**
   * The buffer as the callers write it: `filename + sizeof(CACHE_ROOT)`
   * starts after the root's NUL, the 41 characters end one past the
   * 47-character buffer although the assert (given `sizeof filename`)
   * passes, and the C string handed to `stat`/`open` is `cache/` whatever
   * the fingerprint.
   */
  function AsWrittenFilename(h: Hash): string {
    CACHE_ROOT + [NUL] + HexName(h) + [NUL]
  }

  lemma AsWrittenFilenameIgnoresHash(h: Hash)
    ensures NAME_LENGTH <= FILENAME_SIZE
    ensures |AsWrittenFilename(h)| == FILENAME_SIZE + 1
    ensures CStr(AsWrittenFilename(h)) == CACHE_ROOT
  {
    assert NUL !in CACHE_ROOT;
    assert AsWrittenFilename(h) == CACHE_ROOT + [NUL] + (HexName(h) + [NUL]);
    CStrOfTerminated(CACHE_ROOT, HexName(h) + [NUL]);
  }
}
