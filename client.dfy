/**
 * The pure decisions of client/main.c: the command-line flags the
 * argument callbacks set, the check that accepts or rejects them, and the
 * answers of the FUSE callbacks, which serve an empty root directory.
 */
module Client {
  import opened Wrappers

  /** The errno values the callbacks return negated (Linux numbering). */
  const EPERM: int := 1
  const ENOENT: int := 2

  /** `S_IFDIR` and the file-type mask `S_IFMT` of `st_mode`. */
  const S_IFMT: nat := 0xF000
  const S_IFDIR: nat := 0x4000

  /** A C string's characters: no NUL inside. */
  predicate IsCString(s: string) {
    forall i :: 0 <= i < |s| ==> s[i] != '\0'
  }

  /**
   * `scas_strdup`: a new zeroed buffer of `strlen + 1` characters holding a
   * copy of the string and its terminating NUL.
   */
  method Strdup(s: string) returns (copy: array<char>)
    requires IsCString(s)
    ensures fresh(copy)
    ensures copy.Length == |s| + 1 && copy[..|s|] == s && copy[|s|] == '\0'
  {
    copy := new char[|s| + 1](i requires 0 <= i <= |s| => if i < |s| then s[i] else '\0');
  }

  /** The message `VALIDATE` prints for the first check that fails, and the answer. */
  datatype Verdict = Verdict(valid: int, complaint: Option<string>)

  /** The globals the argument callbacks set. */
  class Flags {
    var force: bool
    var reset: bool
    var create: bool
    var mount: bool
    var createId: array?<char>
    var mountId: array?<char>

    /** The zeroed globals at start-up. */
    constructor ()
      ensures !force && !reset && !create && !mount && createId == null && mountId == null
    {
      force, reset, create, mount := false, false, false, false;
      createId, mountId := null, null;
    }

    /** `scas_parse_arg_force`. */
    method ParseForce()
      modifies this
      ensures force && reset == old(reset) && create == old(create) && mount == old(mount)
      ensures createId == old(createId) && mountId == old(mountId)
    {
      force := true;
    }

    /** `scas_parse_arg_reset`. */
    method ParseReset()
      modifies this
      ensures reset && force == old(force) && create == old(create) && mount == old(mount)
      ensures createId == old(createId) && mountId == old(mountId)
    {
      reset := true;
    }

    /** `scas_parse_arg_mount`: the flag, and a copy of the snapshot id. */
    method ParseMount(value: string)
      requires IsCString(value)
      modifies this
      ensures mount && force == old(force) && reset == old(reset) && create == old(create) && createId == old(createId)
      ensures mountId != null && fresh(mountId) && mountId[..] == value + ['\0']
    {
      mount := true;
      mountId := Strdup(value);
      assert mountId[..] == mountId[..|value|] + [mountId[|value|]];
    }

    /** `scas_parse_arg_create`: the flag, and a copy of the snapshot id. */
    method ParseCreate(value: string)
      requires IsCString(value)
      modifies this
      ensures create && force == old(force) && reset == old(reset) && mount == old(mount) && mountId == old(mountId)
      ensures createId != null && fresh(createId) && createId[..] == value + ['\0']
    {
      create := true;
      createId := Strdup(value);
      assert createId[..] == createId[..|value|] + [createId[|value|]];
    }

    /** `scas_is_valid_args`, over the globals. */
    function IsValidArgs(): (r: Verdict)
      reads this
      ensures r.valid == 1 <==> !reset && !create && !mount
    {
      Validate(force, reset, create, mount)
    }
  }

  /**
   * The decision of `scas_is_valid_args`: each mode excludes the other
   * flags, and the mode branches then return 0 even when their checks
   * pass; only no mode at all (force alone or nothing) is valid.
   */
  function Validate(force: bool, reset: bool, create: bool, mount: bool): (r: Verdict)
    ensures r.valid == 1 <==> !reset && !create && !mount
    ensures r.valid == 0 || r.valid == 1
    ensures r.complaint.Some? ==> r.valid == 0
  {
    if reset then
      if force then Verdict(0, Some("Force mount cannot be used with new."))
      else if create then Verdict(0, Some("Create snapshot cannot be used with new."))
      else if mount then Verdict(0, Some("Mount snapshot cannot be used with new."))
      else Verdict(0, None)
    else if create then
      if force then Verdict(0, Some("Force mount cannot be used with create."))
      else if reset then Verdict(0, Some("New snapshot cannot be used with create."))
      else if mount then Verdict(0, Some("Mount snapshot cannot be used with create."))
      else Verdict(0, None)
    else if mount then
      if force then Verdict(0, Some("Force mount cannot be used with mount."))
      else if reset then Verdict(0, Some("New snapshot cannot be used with mount."))
      else if create then Verdict(0, Some("Create snapshot cannot be used with mount."))
      else Verdict(0, None)
    else Verdict(1, None)
  }

  /** A mode whose exclusivity checks all pass is still refused, silently. */
  lemma ExclusiveModeRefused(force: bool, reset: bool, create: bool, mount: bool)
    requires (reset && !force && !create && !mount)
          || (create && !force && !reset && !mount)
          || (mount && !force && !reset && !create)
    ensures Validate(force, reset, create, mount) == Verdict(0, None)
  {
  }

  /**
   * The reset check of the create and mount branches never fires: the
   * reset branch has already returned.
   */
  lemma ResetChecksUnreachable(force: bool, reset: bool, create: bool, mount: bool)
    ensures Validate(force, reset, create, mount).complaint != Some("New snapshot cannot be used with create.")
    ensures Validate(force, reset, create, mount).complaint != Some("New snapshot cannot be used with mount.")
  {
  }

  /** The fields of `struct stat` that `scas_getattr` sets. */
  datatype Stat = Stat(mode: nat, nlink: nat)

  /** `scas_getattr`: the root is a directory with permissions 0755 and two links; nothing else exists. */
  function Getattr(filename: string): (r: (int, Option<Stat>))
    ensures r.0 == 0 <==> filename == "/"
    ensures r.0 != 0 ==> r.0 == -ENOENT && r.1.None?
    ensures r.0 == 0 ==> r.1.Some? && r.1.value.nlink == 2
  {
    if filename == "/" then (0, Some(Stat(S_IFDIR + 0x1ED, 2))) else (-ENOENT, None)
  }

  /** The root's mode has the directory file type and the permission bits 0755. */
  lemma RootIsDirectory()
    ensures var m := Getattr("/").1.value.mode;
            (m / 0x1000) * 0x1000 == S_IFDIR && m % 0x1000 == 0x1ED
  {
  }

  /** `scas_readdir`: fills "." then ".." and returns 0, whatever the path. */
  function Readdir(path: string): (r: (int, seq<string>))
    ensures r.0 == 0 && r.1 == [".", ".."]
  {
    (0, [".", ".."])
  }

  /** `scas_open`: refuses every file. */
  function Open(filename: string): (rc: int)
    ensures rc == -1
  {
    -1
  }

  /** `scas_read`: refuses every read. */
  function Read(filename: string, size: nat, offset: int): (rc: int)
    ensures rc == -EPERM
  {
    -EPERM
  }
}
