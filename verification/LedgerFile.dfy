/** The persistent ledger over whole runs: writes, rotations that may fail at any of their
    system calls, closes and reopens. Each file write takes effect entirely or not at all. */
module LedgerFile {
  import opened Wrappers
  import opened Receipts
  import opened Text
  import opened HashChain

  const MAX_FILE_SIZE := 100 * 1024 * 1024

  /** How the system calls of one rotation turn out. */
  datatype Rotation = CloseFails | RenameFails(reopened: bool) | NewFileFails | Rotated

  /** The rotated files in order, the file at the ledger's path (None when absent), and
      the fields of the LedgerFile working on it. */
  datatype Snapshot = Snapshot(rotated: seq<string>, current: Option<string>, prevHash: Hash, size: nat, open: bool)

  function CurrentData(s: Snapshot): string {
    if s.current.Some? then s.current.value else ""
  }

  // ---------- the operations on snapshots ----------

  function OpenStep(c: Codec, s: Snapshot): Snapshot {
    var data := CurrentData(s);
    s.(current := Some(data),
    prevHash := if data == "" then GENESIS else HeadHash(c, GENESIS, EntryLines(data)),
    size := |data|,
    open := true)
  }

  function RotateStep(s: Snapshot, how: Rotation): Snapshot {
    if !s.open || how.CloseFails? then s.(open := false)
    else
      match how
      case RenameFails(reopened) => s.(open := reopened)
      case NewFileFails => s.(rotated := s.rotated + [CurrentData(s)], current := None, open := false)
      case Rotated => s.(rotated := s.rotated + [CurrentData(s)], current := Some(""), size := 0)
      case CloseFails => s
  }

  function BeforeWrite(s: Snapshot, how: Rotation): Snapshot {
    if s.size >= MAX_FILE_SIZE then RotateStep(s, how) else s
  }

  /** The line a write appends, None when it fails. */
  function LineWritten(c: Codec, s: Snapshot, r: Receipt, how: Rotation, diskOk: bool): Option<string> {
    var s' := BeforeWrite(s, how);
    if s'.open && diskOk then c.marshal(PersistentEntry(r, s'.prevHash)) else None
  }

  function WriteStep(c: Codec, s: Snapshot, r: Receipt, how: Rotation, diskOk: bool): Snapshot {
    var s' := BeforeWrite(s, how);
    match LineWritten(c, s, r, how, diskOk)
    case None => s'
    case Some(line) => s'.(current := Some(CurrentData(s') + line + "\n"),
      size := s'.size + |line| + 1, prevHash := c.sha256Hex(line))
  }

  // ---------- the objects ----------

  class Disk {
    var rotated: seq<string>
    var current: Option<string>

    constructor ()
      ensures rotated == [] && current == None
    {
      rotated, current := [], None;
    }
  }

  class LedgerFile {
    const codec: Codec
    const disk: Disk
    var prevHash: Hash
    var size: nat
    var open: bool

    ghost predicate Valid()
      reads this, disk
    {
      open ==> disk.current.Some?
    }

    function Snap(): Snapshot
      reads this, disk
    {
      Snapshot(disk.rotated, disk.current, prevHash, size, open)
    }

    constructor OpenLedgerFile(c: Codec, d: Disk)
      modifies d
      ensures Valid() && codec == c && disk == d
      ensures Snap() == OpenStep(c, old(Snapshot(d.rotated, d.current, GENESIS, 0, false)))
    {
      codec := c;
      disk := d;
      var recovered := GENESIS;
      var bytes: nat := 0;
      if d.current.Some? {
        bytes := |d.current.value|;
        if bytes > 0 {
          recovered := ReadLastHash(c, d.current.value);
        }
      }
      prevHash, size, open := recovered, bytes, true;
      new;
      if disk.current.None? {
        disk.current := Some("");
      }
    }

    /** `how` and `diskOk` are the outcomes of the system calls, should they be made. */
    method WriteEntry(r: Receipt, how: Rotation, diskOk: bool) returns (hash: Option<Hash>)
      requires Valid()
      modifies this, disk
      ensures Valid()
      ensures Snap() == WriteStep(codec, old(Snap()), r, how, diskOk)
      ensures var line := LineWritten(codec, old(Snap()), r, how, diskOk);
              hash == if line.Some? then Some(codec.sha256Hex(line.value)) else None
    {
      if size >= MAX_FILE_SIZE {
        RotateLocked(how);
      }
      var line := codec.marshal(PersistentEntry(r, prevHash));
      if line.None? || !open || !diskOk {
        return None;
      }
      disk.current := Some(disk.current.value + line.value + "\n");
      size := size + |line.value| + 1;
      prevHash := codec.sha256Hex(line.value);
      hash := Some(prevHash);
    }

    method RotateLocked(how: Rotation)
      requires Valid()
      modifies this, disk
      ensures Valid()
      ensures Snap() == RotateStep(old(Snap()), how)
    {
      if !open || how.CloseFails? {
        open := false;
        return;
      }
      match how {
        case CloseFails =>
        case RenameFails(reopened) =>
          open := reopened;
        case NewFileFails =>
          disk.rotated := disk.rotated + [disk.current.value];
          disk.current := None;
          open := false;
        case Rotated =>
          disk.rotated := disk.rotated + [disk.current.value];
          disk.current := Some("");
          size := 0;
      }
    }

    method Close()
      requires Valid()
      modifies this
      ensures Valid() && Snap() == old(Snap()).(open := false)
    {
      open := false;
    }
  }
}
