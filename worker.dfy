/**
 * The per-channel worker (client.c): the stages that wipe, partition,
 * format, mount and fill one USB drive, and the verifier that re-reads it.
 *
 * The worker owns one record of the shared segment and writes its state,
 * halt flag and byte counter. Everything it asks of the outside world goes
 * through the same oracle `Env` as the copy engine: each external command
 * (umount, wipefs, parted, mkfs.vfat, mkdir -p, mount) and each file open
 * takes the next tick and fails when that tick is in `fails`; a read of the
 * halt flag after `t` ticks sees it set exactly when `haltAt <= t`, because
 * once the worker has cleared it only other threads write it, and they only
 * ever set it.
 */
module Worker {
  import opened Globals
  import opened Crc32
  import opened Manifest
  import opened Utilities
  import opened CopyEngine
  import opened ControlPlane

  // ---------------------------------------------------------------------------
  // Names derived from the device
  // ---------------------------------------------------------------------------

  /** The position of the last `c` in `s` (strrchr). */
  function LastIndexOf(s: string, c: char): (r: Option<nat>)
    ensures r.Some? ==> r.value < |s| && s[r.value] == c && c !in s[r.value + 1..]
    ensures r.None? <==> c !in s
  {
    if s == [] then None
    else if s[|s| - 1] == c then Some(|s| - 1)
    else
      assert s == s[..|s| - 1] + [s[|s| - 1]];
      LastIndexOf(s[..|s| - 1], c)
  }

  /** What snprintf leaves in a buffer of `size` bytes: at most size - 1 characters. */
  function Truncate(s: string, size: nat): (r: string)
    requires size > 0
    ensures |r| < size && |r| <= |s| && r == s[..|r|]
    ensures |s| < size ==> r == s
  {
    if |s| < size then s else s[..size - 1]
  }

  /**
   * The mount point: MOUNT_POINT, a slash, the device name after its last
   * slash, and "1", in a STRING_LEN buffer. None when the name has no slash,
   * where the worker gives up.
   */
  function MountPointOf(deviceName: string): (r: Option<string>)
    ensures r.None? <==> '/' !in deviceName
    ensures r.Some? ==> |r.value| < STRING_LEN
  {
    match LastIndexOf(deviceName, '/')
    case None => None
    case Some(k) => Some(Truncate(MOUNT_POINT + "/" + deviceName[k + 1..] + "1", STRING_LEN))
  }

  /** The partition the worker creates: the device name with "1" appended. */
  function PartitionOf(deviceName: string): (r: string)
    ensures |r| == |deviceName| + 1 && r[..|deviceName|] == deviceName && r[|deviceName|] == '1'
  {
    deviceName + "1"
  }

  /** For a name of the form <anything>/<base>, the mount point is MOUNT_POINT/<base>1. */
  lemma MountPointOfBase(dir: string, base: string)
    requires '/' !in base
    requires |MOUNT_POINT| + |base| + 2 < STRING_LEN
    ensures MountPointOf(dir + "/" + base) == Some(MOUNT_POINT + "/" + base + "1")
  {
    var name := dir + "/" + base;
    var k := LastIndexOf(name, '/');
    assert name[|dir|] == '/';
    assert name[|dir| + 1..] == base;
  }

  /** The first device of the first hub as the kernel names it. */
  lemma DeviceNamesExample()
    ensures MountPointOf("/dev/sdb") == Some("/mnt/usb/sdb1")
    ensures PartitionOf("/dev/sdb") == "/dev/sdb1"
  {
    MountPointOfBase("/dev", "sdb");
    assert "/dev" + "/" + "sdb" == "/dev/sdb";
    assert MOUNT_POINT + "/" + "sdb" + "1" == "/mnt/usb/sdb1";
  }

  // ---------------------------------------------------------------------------
  // Partition geometry
  // ---------------------------------------------------------------------------

  /** Spare capacity above which the partition is moved and shrunk for wear levelling. */
  const WEAR_LEVELLING_SPARE: nat := 200 * MIB

  const U64_MODULUS: nat := 0x1_0000_0000_0000_0000

  /** The wear-levelling start offset in MiB for the pick `pick`. */
  function StartOffset(pick: nat): nat {
    (1 + pick) * 4
  }

  /** Where the primary partition starts (in MiB) and ends (in percent of the device). */
  datatype Geometry = Geometry(startMiB: nat, endPercent: nat)

  /**
   * The partition geometry for a device of `deviceSize` bytes holding a
   * master of `totalSize` bytes, given the worker's pick `pick` = rand() % 16.
   * The difference is taken in unsigned 64-bit arithmetic.
   */
  function PartitionGeometry(deviceSize: nat, totalSize: int, pick: nat): (g: Geometry)
    requires pick < 16
    ensures g.endPercent == 90 || g == Geometry(1, 100)
    ensures g.endPercent == 90 ==> g.startMiB % 4 == 0 && 4 <= g.startMiB <= 64
  {
    if (deviceSize - totalSize) % U64_MODULUS > WEAR_LEVELLING_SPARE then Geometry(StartOffset(pick), 90)
    else Geometry(1, 100)
  }

  /** When the device is at least as large as the master, the spare capacity decides. */
  lemma GeometryOfLargerDevice(deviceSize: nat, totalSize: nat, pick: nat)
    requires pick < 16 && totalSize <= deviceSize < U64_MODULUS
    ensures PartitionGeometry(deviceSize, totalSize, pick).endPercent == 90 <==> deviceSize - totalSize > WEAR_LEVELLING_SPARE
  {
  }

  /**
   * A device smaller than the master wraps the unsigned difference round to
   * a huge value, so it takes the wear-levelling branch too.
   */
  lemma GeometryOfSmallerDevice(deviceSize: nat, totalSize: nat, pick: nat)
    requires pick < 16 && deviceSize < totalSize < U64_MODULUS
    requires totalSize - deviceSize < U64_MODULUS - WEAR_LEVELLING_SPARE
    ensures PartitionGeometry(deviceSize, totalSize, pick) == Geometry(StartOffset(pick), 90)
  {
    assert (deviceSize - totalSize) % U64_MODULUS == U64_MODULUS + deviceSize - totalSize;
  }

  /** The wear-levelling start offsets are exactly the multiples of 4 MiB from 4 to 64. */
  lemma WearLevellingOffsets(m: nat)
    ensures (exists pick | 0 <= pick < 16 :: StartOffset(pick) == m) <==> (m % 4 == 0 && 4 <= m <= 64)
  {
    if m % 4 == 0 && 4 <= m <= 64 {
      var pick := m / 4 - 1;
      assert StartOffset(pick) == m;
    }
  }

  // ---------------------------------------------------------------------------
  // The USB drive as the verifier sees it
  // ---------------------------------------------------------------------------

  /** The regular files of the tree `entries` placed under `dir`, by full path. */
  function Files(dir: string, entries: seq<Entry>): (m: map<string, seq<bv8>>)
    decreases entries
  {
    if entries == [] then map[]
    else
      var e := entries[0];
      var here := match e.node
        case File(data) => map[JoinPath(dir, e.name) := data]
        case Dir(children) => Files(JoinPath(dir, e.name), children)
        case Special => map[];
      here + Files(dir, entries[1..])
  }

  /** compute_crc32 of a file at the next tick: 0 when it cannot be opened. */
  function FileCrc(env: Env, t: nat, path: string, drive: map<string, seq<bv8>>): (crc: bv32)
    ensures path !in drive ==> crc == 0
    ensures crc != 0 ==> path in drive && crc == Crc(drive[path])
  {
    if env.Fails(t) || path !in drive then 0 else Crc(drive[path])
  }

  /** An external command the worker runs. */
  datatype Command =
    | Umount(mountPoint: string)
    | Wipefs(device: string)
    | Parted(device: string, geometry: Geometry)
    | Mkfs(partition: string)
    | MkdirP(mountPoint: string)
    | Mount(partition: string, mountPoint: string)

  /** How verify ended. Every end but Passed returns false, except NoTab, where the process exits with status 0. */
  datatype VerifyEnd =
    | Passed
    | NoManifest
    | MountFailed
    | Mismatch(line: nat)
    | NoTab(line: nat)
    | UnmountFailed

  /**
   * How the manifest loop ended: it ran out of lines, or saw halt set, or
   * stopped at a line.
   */
  datatype LoopEnd = Exhausted(t: nat, halted: bool) | Stopped(end: VerifyEnd, t: nat)

  /**
   * verify's loop over the manifest `text` from line number `i`: while halt
   * is clear, read a line, split it, and compare its CRC with the one
   * recomputed for the file under the mount point.
   */
  function CheckLines(env: Env, t: nat, text: string, mountPoint: string, drive: map<string, seq<bv8>>, i: nat): (r: LoopEnd)
    ensures r.Stopped? ==> r.end.Mismatch? || r.end.NoTab?
    ensures r.Exhausted? && r.halted ==> env.HaltSeen(r.t)
    ensures t <= r.t
    decreases |text|
  {
    if env.HaltSeen(t) then Exhausted(t, true)
    else match NextLine(env, t, text, mountPoint, drive, i)
      case EndOfManifest => Exhausted(t, false)
      case Stop(end, t1) => Stopped(end, t1)
      case Next(rest, t1) => CheckLines(env, t1, rest, mountPoint, drive, i + 1)
  }

  /** What reading and checking one line did: end of file, a stop, or a match and the text after the line. */
  datatype LineOutcome = EndOfManifest | Stop(end: VerifyEnd, t: nat) | Next(rest: string, t: nat)

  /** One turn of verify's loop once halt has been found clear: line `i` of the manifest is the first line of `text`. */
  function NextLine(env: Env, t: nat, text: string, mountPoint: string, drive: map<string, seq<bv8>>, i: nat): (o: LineOutcome)
    ensures o.Stop? ==> (o.end == NoTab(i) && o.t == t) || (o.end == Mismatch(i) && o.t == t + 1)
    ensures o.Next? ==> |o.rest| < |text| && o.t == t + 1
  {
    match Fgets(text)
    case None => EndOfManifest
    case Some((line, rest)) =>
      match ParseCrcLine(line)
      case None => Stop(NoTab(i), t)
      case Some((name, expected)) =>
        if expected != FileCrc(env, t, JoinPath(mountPoint, name), drive) as int then Stop(Mismatch(i), t + 1)
        else Next(rest, t + 1)
  }

  /**
   * What verify did: how it ended, the commands it ran, the tick reached,
   * and whether one of its reads of the halt flag found it set.
   */
  datatype VerifyResult = VerifyResult(end: VerifyEnd, commands: seq<Command>, t: nat, haltSeen: bool)

  /**
   * verify with the manifest `text` (None when it cannot be opened): mount
   * the partition unless halt is set, check the lines, and unmount.
   */
  function VerifySpec(env: Env, t: nat, text: Option<string>, partition: string, mountPoint: string, drive: map<string, seq<bv8>>): (r: VerifyResult)
    ensures r.haltSeen ==> env.HaltSeen(r.t)
    ensures t <= r.t
  {
    if text.None? then VerifyResult(NoManifest, [], t, false)
    else if env.HaltSeen(t) then Mounted(env, t, text.value, mountPoint, drive)
    else if env.Fails(t) then VerifyResult(MountFailed, [Mount(partition, mountPoint)], t + 1, false)
    else
      var v := Mounted(env, t + 1, text.value, mountPoint, drive);
      v.(commands := [Mount(partition, mountPoint)] + v.commands)
  }

  /** The rest of verify once the partition is mounted (or halt skipped the mount): check the lines, then unmount. */
  function Mounted(env: Env, t: nat, text: string, mountPoint: string, drive: map<string, seq<bv8>>): (r: VerifyResult)
    ensures r.haltSeen ==> env.HaltSeen(r.t)
    ensures t <= r.t
  {
    match CheckLines(env, t, text, mountPoint, drive, 0)
    case Stopped(end, t1) => VerifyResult(end, [], t1, false)
    case Exhausted(t1, halted) =>
      VerifyResult(if env.Fails(t1) then UnmountFailed else Passed, [Umount(mountPoint)], t1 + 1, halted)
  }

  /** What compute_crc32 returns for the file at `path` when opening cannot fail: its CRC, or 0 when it is missing. */
  function StoredCrc(path: string, drive: map<string, seq<bv8>>): (crc: bv32)
    ensures path in drive ==> crc == Crc(drive[path])
  {
    if path in drive then Crc(drive[path]) else 0
  }

  /** How one manifest line fares against the drive. */
  datatype LineCheck = Good | WrongCrc | NoTabLine

  /**
   * A manifest line against the drive: without a tab, with a CRC other than
   * the one its file has on the drive, or good.
   */
  function CheckLine(line: string, mountPoint: string, drive: map<string, seq<bv8>>): (c: LineCheck)
    ensures c == NoTabLine <==> '\t' !in line
  {
    match ParseCrcLine(line)
    case None => NoTabLine
    case Some((name, expected)) => if expected == StoredCrc(JoinPath(mountPoint, name), drive) as int then Good else WrongCrc
  }

  /** The check of every line of `lines`, in order. */
  function Checks(lines: seq<string>, mountPoint: string, drive: map<string, seq<bv8>>): (c: seq<LineCheck>) {
    seq(|lines|, k requires 0 <= k < |lines| => CheckLine(lines[k], mountPoint, drive))
  }

  /**
   * The reference verdict on the line checks `checks`, the first numbered
   * `i`: the first bad line decides.
   */
  function Audit(checks: seq<LineCheck>, i: nat): (r: VerifyEnd)
    ensures r == Passed || r.Mismatch? || r.NoTab?
    decreases checks
  {
    if checks == [] then Passed
    else match checks[0]
      case Good => Audit(checks[1..], i + 1)
      case WrongCrc => Mismatch(i)
      case NoTabLine => NoTab(i)
  }

  /**
   * The audit passes exactly when every line is good; otherwise it names
   * the first line that is not, as a mismatch or a missing tab as that line
   * is.
   */
  lemma {:induction false} AuditCharacterised(checks: seq<LineCheck>, i: nat)
    ensures Audit(checks, i) == Passed <==> forall k | 0 <= k < |checks| :: checks[k] == Good
    ensures var r := Audit(checks, i);
      r != Passed ==>
        i <= r.line < i + |checks| && checks[r.line - i] != Good &&
        (r.NoTab? <==> checks[r.line - i] == NoTabLine) &&
        forall k | 0 <= k < r.line - i :: checks[k] == Good
    decreases checks
  {
    if checks != [] && checks[0] == Good {
      AuditCharacterised(checks[1..], i + 1);
      assert forall k | 1 <= k < |checks| :: checks[k] == checks[1..][k - 1];
    }
  }

  /** With nothing failing, one turn of verify's loop does what the line's check says. */
  lemma NextLineUndisturbed(env: Env, t: nat, text: string, mountPoint: string, drive: map<string, seq<bv8>>, i: nat)
    requires Undisturbed(env)
    ensures var o := NextLine(env, t, text, mountPoint, drive, i);
      match Fgets(text)
      case None => o == EndOfManifest
      case Some((line, rest)) =>
        match CheckLine(line, mountPoint, drive)
        case Good => o == Next(rest, t + 1)
        case WrongCrc => o.Stop? && o.end == Mismatch(i)
        case NoTabLine => o.Stop? && o.end == NoTab(i)
  {
  }

  /**
   * With nothing failing and halt never set, verify's loop over the
   * manifest reaches the audit's verdict: it runs to the end of the file
   * exactly when every line is good, and otherwise stops at the first bad
   * line.
   */
  lemma {:induction false} CheckLinesUndisturbed(env: Env, t: nat, text: string, mountPoint: string, drive: map<string, seq<bv8>>, i: nat)
    requires Undisturbed(env)
    ensures var r := CheckLines(env, t, text, mountPoint, drive, i);
      var a := Audit(Checks(ReadLines(text), mountPoint, drive), i);
      if a == Passed then r.Exhausted? && !r.halted else r.Stopped? && r.end == a
    decreases |text|
  {
    NextLineUndisturbed(env, t, text, mountPoint, drive, i);
    var next := Fgets(text);
    if next.None? {
      assert ReadLines(text) == [];
      assert Checks([], mountPoint, drive) == [];
    } else {
      var line := next.value.0;
      var rest := next.value.1;
      assert ReadLines(text) == [line] + ReadLines(rest);
      ChecksCons(line, ReadLines(rest), mountPoint, drive);
      if CheckLine(line, mountPoint, drive) == Good {
        CheckLinesUndisturbed(env, t + 1, rest, mountPoint, drive, i + 1);
      }
    }
  }

  /** Checking a line followed by others checks that line first. */
  lemma ChecksCons(line: string, lines: seq<string>, mountPoint: string, drive: map<string, seq<bv8>>)
    ensures Checks([line] + lines, mountPoint, drive) == [CheckLine(line, mountPoint, drive)] + Checks(lines, mountPoint, drive)
  {
    var l := [line] + lines;
    assert forall k | 0 < k < |l| :: l[k] == lines[k - 1];
  }

  /**
   * With nothing failing and halt never set, verify of a manifest mounts the
   * partition, reaches the audit's verdict, and unmounts exactly when every
   * line matched.
   */
  lemma VerifyUndisturbed(env: Env, t: nat, text: string, partition: string, mountPoint: string, drive: map<string, seq<bv8>>)
    requires Undisturbed(env)
    ensures var v := VerifySpec(env, t, Some(text), partition, mountPoint, drive);
      var a := Audit(Checks(ReadLines(text), mountPoint, drive), 0);
      v.end == a && !v.haltSeen &&
      v.commands == [Mount(partition, mountPoint)] + (if a == Passed then [Umount(mountPoint)] else [])
  {
    CheckLinesUndisturbed(env, t + 1, text, mountPoint, drive, 0);
  }

  // ---------------------------------------------------------------------------
  // The stages of a run, as functions of the oracle
  // ---------------------------------------------------------------------------

  /**
   * Where a run has got to: the three fields of its record the worker
   * writes, its exit status once it has exited, the commands run so far, the
   * tick reached, and the files on the drive.
   */
  datatype Snapshot = Snapshot(
    state: ChannelState,
    halt: bool,
    bytesCopied: int,
    exit: Option<int>,
    commands: seq<Command>,
    t: nat,
    drive: map<string, seq<bv8>>)

  /** failed: the record says FAILED and halt, and the process exits with status 1. */
  function Fail(s: Snapshot): (r: Snapshot)
    ensures r.state == Failed && r.halt && r.exit == Some(1)
  {
    s.(state := Failed, halt := true, exit := Some(1))
  }

  /** Step 1: STARTING, halt cleared, counter zeroed, then umount unless halt is already set again. */
  function StartStage(env: Env, s: Snapshot, mountPoint: string): (r: Snapshot)
    ensures s.exit.Some? ==> r == s
    ensures s.exit.None? ==> r.state == Starting && r.bytesCopied == 0 && r.exit.None? && (r.halt <==> env.HaltSeen(s.t))
    ensures s.exit.None? ==> r.commands == s.commands + (if env.HaltSeen(s.t) then [] else [Umount(mountPoint)])
  {
    if s.exit.Some? then s
    else
      var s1 := s.(state := Starting, halt := false, bytesCopied := 0);
      if env.HaltSeen(s.t) then s1.(halt := true)
      else s1.(commands := s.commands + [Umount(mountPoint)], t := s.t + 1)
  }

  /**
   * A stage guarded by a read of halt: unless halt is set, move to `state`
   * (when there is one) and run `cmd`; its failure is fatal.
   */
  function GuardedStage(env: Env, s: Snapshot, state: Option<ChannelState>, cmd: Command): (r: Snapshot)
    ensures s.exit.Some? ==> r == s
    ensures s.exit.None? && env.HaltSeen(s.t) ==> r.halt && r.exit.None? && r.commands == s.commands && r.state == s.state
    ensures s.exit.None? && !env.HaltSeen(s.t) ==>
      r.commands == s.commands + [cmd] && (r.exit.Some? <==> env.Fails(s.t)) &&
      (r.exit.Some? ==> r.state == Failed && r.halt && r.exit == Some(1)) &&
      (r.exit.None? ==> r.halt == s.halt && r.state == (if state.Some? then state.value else s.state))
    ensures r.bytesCopied == s.bytesCopied
  {
    if s.exit.Some? then s
    else if env.HaltSeen(s.t) then s.(halt := true)
    else
      var s1 := s.(state := if state.Some? then state.value else s.state, commands := s.commands + [cmd], t := s.t + 1);
      if env.Fails(s.t) then Fail(s1) else s1
  }

  /** Step 8: unless halt is set, COPYING, and copy the master to the mount point without a manifest. */
  function CopyStage(env: Env, s: Snapshot, master: seq<Entry>, mountPoint: string): (r: Snapshot)
    ensures s.exit.Some? ==> r == s
    ensures r.commands == s.commands && r.bytesCopied >= s.bytesCopied
    ensures s.exit.None? && env.HaltSeen(s.t) ==> r == s.(halt := true)
    ensures s.exit.None? && r.exit.Some? ==> r.state == Failed && r.halt && r.exit == Some(1)
  {
    if s.exit.Some? then s
    else if env.HaltSeen(s.t) then s.(halt := true)
    else
      var d := CopyDirSpec(env, s.t, RAMDIR_PATH, mountPoint, master, false);
      var s1 := s.(state := Copying, bytesCopied := s.bytesCopied + d.counted, t := d.t,
                   drive := if d.created.Some? then Files(mountPoint, d.created.value) else map[]);
      if d.status != 0 then Fail(s1) else s1
  }

  /** Step 9: UNMOUNTING and umount, whatever halt says; its failure is fatal. */
  function UnmountStage(env: Env, s: Snapshot, mountPoint: string): (r: Snapshot)
    ensures s.exit.Some? ==> r == s
    ensures s.exit.None? ==> r.commands == s.commands + [Umount(mountPoint)]
    ensures s.exit.None? ==> (r.exit.Some? <==> env.Fails(s.t)) && r.state == (if env.Fails(s.t) then Failed else Unmounting)
  {
    if s.exit.Some? then s
    else
      var s1 := s.(state := Unmounting, commands := s.commands + [Umount(mountPoint)], t := s.t + 1);
      if env.Fails(s.t) then Fail(s1) else s1
  }

  /**
   * Step 10: unless halt is set, VERIFYING and verify; then SUCCESS or, when
   * halt was set meanwhile, FAILED if it passed, CRC_FAILED if it failed.
   * A manifest line without a tab ends the process with status 0.
   */
  function VerifyStage(env: Env, s: Snapshot, manifest: Option<string>, partition: string, mountPoint: string): (r: Snapshot)
    ensures r.bytesCopied == s.bytesCopied && r.drive == s.drive
    ensures s.exit.None? && !env.HaltSeen(s.t) && r.state == Success ==> r.exit.None? && !env.HaltSeen(r.t)
    ensures s.exit.None? && r.exit.Some? ==> r.exit == Some(0)
  {
    if s.exit.Some? then s
    else if env.HaltSeen(s.t) then s.(halt := true)
    else
      var v := VerifySpec(env, s.t, manifest, partition, mountPoint, s.drive);
      var s1 := s.(state := Verifying, halt := s.halt || v.haltSeen, commands := s.commands + v.commands, t := v.t);
      match v.end
      case Passed => if env.HaltSeen(v.t) then s1.(state := Failed, halt := true) else s1.(state := Success)
      case NoTab(_) => s1.(exit := Some(0))
      case _ => s1.(state := CrcFailed)
  }

  /** The checks on the record made before anything else: a name of at least 4 characters with a slash, a path of at least 2. */
  predicate RecordUsable(deviceName: string, devicePath: string) {
    |deviceName| >= 4 && |devicePath| >= 2 && '/' in deviceName
  }

  /** Steps 1 to 7. */
  function PrepareStages(env: Env, s: Snapshot, deviceName: string, mountPoint: string, partition: string, geometry: Geometry): Snapshot {
    var s1 := StartStage(env, s, mountPoint);
    var s2 := GuardedStage(env, s1, Some(Erasing), Wipefs(deviceName));
    var s3 := GuardedStage(env, s2, Some(Partitioning), Parted(deviceName, geometry));
    var s4 := GuardedStage(env, s3, Some(Formating), Mkfs(partition));
    var s5 := GuardedStage(env, s4, Some(Mounting), MkdirP(mountPoint));
    GuardedStage(env, s5, None, Mount(partition, mountPoint))
  }

  /** The six commands of steps 1 to 7, in order. */
  function Preparation(deviceName: string, geometry: Geometry): seq<Command>
    requires '/' in deviceName
  {
    var mp := MountPointOf(deviceName).value;
    var part := PartitionOf(deviceName);
    [Umount(mp), Wipefs(deviceName), Parted(deviceName, geometry), Mkfs(part), MkdirP(mp), Mount(part, mp)]
  }

  /**
   * A whole run of the worker on the record `s` for the device `deviceName`
   * at `devicePath`, partitioned with `geometry` (PartitionGeometry of the
   * device size, the master's size and the worker's pick); the master is
   * `master`, with manifest `manifest`.
   */
  function RunSpec(env: Env, s: Snapshot, deviceName: string, devicePath: string, geometry: Geometry,
                   master: seq<Entry>, manifest: Option<string>): (r: Snapshot)
    ensures r.exit.Some?
  {
    if !RecordUsable(deviceName, devicePath) then Fail(s)
    else
      var mp := MountPointOf(deviceName).value;
      var part := PartitionOf(deviceName);
      var s6 := PrepareStages(env, s, deviceName, mp, part, geometry);
      var s7 := CopyStage(env, s6, master, mp);
      var s8 := UnmountStage(env, s7, mp);
      Finish(VerifyStage(env, s8, manifest, part, mp))
  }

  /** Step 11: a run that has not ended the process exits with status 0. */
  function Finish(s: Snapshot): (r: Snapshot)
    ensures r.exit.Some? && (s.exit.Some? ==> r == s)
    ensures r.exit.None? ==> r == s.(exit := Some(0))
  {
    if s.exit.Some? then s else s.(exit := Some(0))
  }

  // ---------------------------------------------------------------------------
  // What a run guarantees
  // ---------------------------------------------------------------------------

  /** Once a poll of halt has seen it set, every later poll does too. */
  lemma HaltStaysSeen(env: Env, t: nat, u: nat)
    requires t <= u && env.HaltSeen(t)
    ensures env.HaltSeen(u)
  {
  }

  /**
   * A run still in progress: it has not exited, its halt flag is set only
   * once a poll has seen it, and it has not claimed SUCCESS.
   */
  predicate Running(env: Env, s: Snapshot) {
    s.exit.None? && (s.halt ==> env.HaltSeen(s.t)) && s.state != Success
  }

  /**
   * A run that has exited before the end: with status 1 after marking its
   * record FAILED and halted, or with status 0 in VERIFYING, at a manifest
   * line without a tab.
   */
  predicate Exited(s: Snapshot) {
    (s.exit == Some(0) && s.state == Verifying) || (s.exit == Some(1) && s.state == Failed && s.halt)
  }

  /** Steps 1 to 9 keep a run either in progress or properly exited. */
  lemma StagesKeepSound(env: Env, s: Snapshot, deviceName: string, mountPoint: string, partition: string,
                        geometry: Geometry, master: seq<Entry>)
    requires s.exit.None?
    ensures var s6 := PrepareStages(env, s, deviceName, mountPoint, partition, geometry);
      var s8 := UnmountStage(env, CopyStage(env, s6, master, mountPoint), mountPoint);
      Running(env, s8) || Exited(s8)
  {
    PrepareKeepsSound(env, s, deviceName, mountPoint, partition, geometry);
    var s6 := PrepareStages(env, s, deviceName, mountPoint, partition, geometry);
    CopyKeepsSound(env, s6, master, mountPoint);
    var s7 := CopyStage(env, s6, master, mountPoint);
    if Running(env, s7) && s7.halt {
      HaltStaysSeen(env, s7.t, s7.t + 1);
    }
  }

  /** Steps 1 to 7 leave a run in progress or properly exited. */
  lemma PrepareKeepsSound(env: Env, s: Snapshot, deviceName: string, mountPoint: string, partition: string, geometry: Geometry)
    requires s.exit.None?
    ensures var s6 := PrepareStages(env, s, deviceName, mountPoint, partition, geometry);
      Running(env, s6) || Exited(s6)
  {
    var s1 := StartStage(env, s, mountPoint);
    assert Running(env, s1);
    var s2 := GuardedStage(env, s1, Some(Erasing), Wipefs(deviceName));
    var s3 := GuardedStage(env, s2, Some(Partitioning), Parted(deviceName, geometry));
    var s4 := GuardedStage(env, s3, Some(Formating), Mkfs(partition));
    var s5 := GuardedStage(env, s4, Some(Mounting), MkdirP(mountPoint));
    GuardedKeepsSound(env, s1, Some(Erasing), Wipefs(deviceName));
    GuardedKeepsSound(env, s2, Some(Partitioning), Parted(deviceName, geometry));
    GuardedKeepsSound(env, s3, Some(Formating), Mkfs(partition));
    GuardedKeepsSound(env, s4, Some(Mounting), MkdirP(mountPoint));
    GuardedKeepsSound(env, s5, None, Mount(partition, mountPoint));
  }

  /** Step 8 keeps a run in progress or properly exited. */
  lemma CopyKeepsSound(env: Env, s: Snapshot, master: seq<Entry>, mountPoint: string)
    requires Running(env, s) || Exited(s)
    ensures var r := CopyStage(env, s, master, mountPoint); Running(env, r) || Exited(r)
  {
    if Running(env, s) && !env.HaltSeen(s.t) {
      assert s.halt ==> env.HaltSeen(s.t);
    }
  }

  /** A stage guarded by halt keeps a run in progress or properly exited. */
  lemma GuardedKeepsSound(env: Env, s: Snapshot, state: Option<ChannelState>, cmd: Command)
    requires Running(env, s) || Exited(s)
    requires state != Some(Success)
    ensures var r := GuardedStage(env, s, state, cmd); Running(env, r) || Exited(r)
  {
    if Running(env, s) && s.halt {
      HaltStaysSeen(env, s.t, s.t + 1);
    }
  }

  /**
   * How every run ends: with exit status 0 or 1; status 1 with the record
   * FAILED and halted; and SUCCESS only with halt clear and unseen by the
   * last poll.
   */
  predicate ProperEnd(env: Env, r: Snapshot) {
    (r.exit == Some(0) || r.exit == Some(1)) &&
    (r.exit == Some(1) ==> r.state == Failed && r.halt) &&
    (r.state == Success ==> r.exit == Some(0) && !r.halt && !env.HaltSeen(r.t))
  }

  /** Every run ends properly, whatever the oracle does. */
  lemma RunOutcome(env: Env, s: Snapshot, deviceName: string, devicePath: string, geometry: Geometry,
                   master: seq<Entry>, manifest: Option<string>)
    requires s.exit.None?
    ensures ProperEnd(env, RunSpec(env, s, deviceName, devicePath, geometry, master, manifest))
  {
    if RecordUsable(deviceName, devicePath) {
      var mp := MountPointOf(deviceName).value;
      var part := PartitionOf(deviceName);
      StagesKeepSound(env, s, deviceName, mp, part, geometry, master);
      var s6 := PrepareStages(env, s, deviceName, mp, part, geometry);
      var s8 := UnmountStage(env, CopyStage(env, s6, master, mp), mp);
      VerifyStageSound(env, s8, manifest, part, mp);
      var s9 := VerifyStage(env, s8, manifest, part, mp);
      FinishProper(env, s9);
      RunSpecStages(env, s, deviceName, devicePath, geometry, master, manifest);
    }
  }

  /** Exit status 0 for a run that reaches the end without exiting keeps the run's end proper. */
  lemma FinishProper(env: Env, s: Snapshot)
    requires Exited(s) || (s.exit.None? && (s.state == Success ==> !s.halt && !env.HaltSeen(s.t)))
    ensures ProperEnd(env, if s.exit.Some? then s else s.(exit := Some(0)))
  {
  }

  /** A run on a usable record is steps 1 to 10, followed by exit status 0 unless a step exited. */
  lemma RunSpecStages(env: Env, s: Snapshot, deviceName: string, devicePath: string, geometry: Geometry,
                      master: seq<Entry>, manifest: Option<string>)
    requires RecordUsable(deviceName, devicePath)
    ensures var mp := MountPointOf(deviceName).value;
      var part := PartitionOf(deviceName);
      var s6 := PrepareStages(env, s, deviceName, mp, part, geometry);
      var s8 := UnmountStage(env, CopyStage(env, s6, master, mp), mp);
      var s9 := VerifyStage(env, s8, manifest, part, mp);
      RunSpec(env, s, deviceName, devicePath, geometry, master, manifest) == Finish(s9)
  {
  }

  /**
   * Steps 1 to 7 that end neither exited nor with halt seen ran all six
   * commands, in order, one tick each, and left the record MOUNTING with
   * halt clear and the counter at 0.
   */
  lemma PreparedWithoutHalt(env: Env, s: Snapshot, deviceName: string, mountPoint: string, partition: string, geometry: Geometry)
    requires s.exit.None?
    requires var s6 := PrepareStages(env, s, deviceName, mountPoint, partition, geometry);
      s6.exit.None? && !env.HaltSeen(s6.t)
    ensures var s6 := PrepareStages(env, s, deviceName, mountPoint, partition, geometry);
      s6.commands == s.commands + [Umount(mountPoint), Wipefs(deviceName), Parted(deviceName, geometry),
                                   Mkfs(partition), MkdirP(mountPoint), Mount(partition, mountPoint)] &&
      s6.t == s.t + 6 && s6.state == Mounting && !s6.halt && s6.bytesCopied == 0 && s6.drive == s.drive
  {
    var s1 := StartStage(env, s, mountPoint);
    var s2 := GuardedStage(env, s1, Some(Erasing), Wipefs(deviceName));
    var s3 := GuardedStage(env, s2, Some(Partitioning), Parted(deviceName, geometry));
    var s4 := GuardedStage(env, s3, Some(Formating), Mkfs(partition));
    var s5 := GuardedStage(env, s4, Some(Mounting), MkdirP(mountPoint));
    GuardedUnhalted(env, s5, None, Mount(partition, mountPoint));
    GuardedUnhalted(env, s4, Some(Mounting), MkdirP(mountPoint));
    GuardedUnhalted(env, s3, Some(Formating), Mkfs(partition));
    GuardedUnhalted(env, s2, Some(Partitioning), Parted(deviceName, geometry));
    GuardedUnhalted(env, s1, Some(Erasing), Wipefs(deviceName));
    StartUnhalted(env, s, mountPoint);
  }

  /** Step 1 whose halt poll finds halt clear runs the umount and clears the record. */
  lemma StartUnhalted(env: Env, s: Snapshot, mountPoint: string)
    requires s.exit.None?
    ensures var r := StartStage(env, s, mountPoint);
      r.exit.None? && r.state != Success &&
      (!env.HaltSeen(r.t) ==>
         r.commands == s.commands + [Umount(mountPoint)] && r.t == s.t + 1 &&
         r.state == Starting && !r.halt && r.bytesCopied == 0 && r.drive == s.drive)
  {
    if env.HaltSeen(s.t) { assert StartStage(env, s, mountPoint).t == s.t; }
  }

  /**
   * A guarded step that leaves the run going with halt unseen found halt
   * clear, ran its command successfully, and took one tick.
   */
  lemma GuardedUnhalted(env: Env, s: Snapshot, state: Option<ChannelState>, cmd: Command)
    ensures var r := GuardedStage(env, s, state, cmd);
      r.exit.None? && !env.HaltSeen(r.t) ==>
        s.exit.None? && !env.HaltSeen(s.t) && !env.Fails(s.t) &&
        r.commands == s.commands + [cmd] && r.t == s.t + 1 && r.state == (if state.Some? then state.value else s.state) &&
        r.halt == s.halt && r.bytesCopied == s.bytesCopied && r.drive == s.drive
  {
  }

  /** verify that passes with halt unseen at its end mounted the partition, found every line good, and unmounted. */
  lemma VerifyPassed(env: Env, t: nat, manifest: Option<string>, partition: string, mountPoint: string, drive: map<string, seq<bv8>>)
    requires var v := VerifySpec(env, t, manifest, partition, mountPoint, drive);
      v.end == Passed && !env.HaltSeen(v.t)
    ensures var v := VerifySpec(env, t, manifest, partition, mountPoint, drive);
      manifest.Some? && v.commands == [Mount(partition, mountPoint), Umount(mountPoint)] && !v.haltSeen &&
      CheckLines(env, t + 1, manifest.value, mountPoint, drive, 0) == Exhausted(v.t - 1, false)
  {
    if manifest.Some? && env.HaltSeen(t) {
      HaltStaysSeen(env, t, VerifySpec(env, t, manifest, partition, mountPoint, drive).t);
    }
  }

  /**
   * A run that reports SUCCESS had a usable record and a manifest, ran
   * every command of steps 1 to 10 in order, copied the whole master
   * without error from tick s.t + 6, and its counter and drive hold what
   * that copy wrote.
   */
  lemma SuccessfulRun(env: Env, s: Snapshot, deviceName: string, devicePath: string, geometry: Geometry,
                      master: seq<Entry>, manifest: Option<string>)
    requires s.exit.None?
    requires RunSpec(env, s, deviceName, devicePath, geometry, master, manifest).state == Success
    ensures RecordUsable(deviceName, devicePath) && manifest.Some?
    ensures var r := RunSpec(env, s, deviceName, devicePath, geometry, master, manifest);
      var mp := MountPointOf(deviceName).value;
      var part := PartitionOf(deviceName);
      var d := CopyDirSpec(env, s.t + 6, RAMDIR_PATH, mp, master, false);
      d.status == 0 && d.created.Some? &&
      r.bytesCopied == d.counted && r.drive == Files(mp, d.created.value) &&
      r.commands == s.commands + Preparation(deviceName, geometry) + [Umount(mp), Mount(part, mp), Umount(mp)]
  {
    if RecordUsable(deviceName, devicePath) {
      var mp := MountPointOf(deviceName).value;
      var part := PartitionOf(deviceName);
      RunSpecStages(env, s, deviceName, devicePath, geometry, master, manifest);
      PrepareNeverSucceeds(env, s, deviceName, mp, part, geometry);
      var s6 := PrepareStages(env, s, deviceName, mp, part, geometry);
      AfterPreparation(env, s6, master, mp, part, manifest);
      PreparedWithoutHalt(env, s, deviceName, mp, part, geometry);
      AppendAssoc(s.commands + Preparation(deviceName, geometry), [Umount(mp)], [Mount(part, mp), Umount(mp)]);
    }
  }

  /** Steps 1 to 7 never leave the record in SUCCESS. */
  lemma PrepareNeverSucceeds(env: Env, s: Snapshot, deviceName: string, mountPoint: string, partition: string, geometry: Geometry)
    requires s.exit.None?
    ensures PrepareStages(env, s, deviceName, mountPoint, partition, geometry).state != Success
  {
    var s1 := StartStage(env, s, mountPoint);
    var s2 := GuardedStage(env, s1, Some(Erasing), Wipefs(deviceName));
    var s3 := GuardedStage(env, s2, Some(Partitioning), Parted(deviceName, geometry));
    var s4 := GuardedStage(env, s3, Some(Formating), Mkfs(partition));
    var s5 := GuardedStage(env, s4, Some(Mounting), MkdirP(mountPoint));
    GuardedNeverSucceeds(env, s1, Some(Erasing), Wipefs(deviceName));
    GuardedNeverSucceeds(env, s2, Some(Partitioning), Parted(deviceName, geometry));
    GuardedNeverSucceeds(env, s3, Some(Formating), Mkfs(partition));
    GuardedNeverSucceeds(env, s4, Some(Mounting), MkdirP(mountPoint));
    GuardedNeverSucceeds(env, s5, None, Mount(partition, mountPoint));
  }

  lemma GuardedNeverSucceeds(env: Env, s: Snapshot, state: Option<ChannelState>, cmd: Command)
    requires s.state != Success && state != Some(Success)
    ensures GuardedStage(env, s, state, cmd).state != Success
  {
  }

  /**
   * Steps 8 to 10 that end in SUCCESS started from a run in progress with
   * halt unseen, copied the whole master without error, unmounted, and
   * verified with a mount and an unmount.
   */
  lemma AfterPreparation(env: Env, s: Snapshot, master: seq<Entry>, mountPoint: string, partition: string, manifest: Option<string>)
    requires s.state != Success
    requires VerifyStage(env, UnmountStage(env, CopyStage(env, s, master, mountPoint), mountPoint), manifest, partition, mountPoint).state == Success
    ensures s.exit.None? && !env.HaltSeen(s.t) && manifest.Some?
    ensures var r := VerifyStage(env, UnmountStage(env, CopyStage(env, s, master, mountPoint), mountPoint), manifest, partition, mountPoint);
      var d := CopyDirSpec(env, s.t, RAMDIR_PATH, mountPoint, master, false);
      d.status == 0 && d.created.Some? && r.exit.None? &&
      r.bytesCopied == s.bytesCopied + d.counted && r.drive == Files(mountPoint, d.created.value) && r.halt == s.halt &&
      r.commands == s.commands + [Umount(mountPoint), Mount(partition, mountPoint), Umount(mountPoint)]
  {
    var s7 := CopyStage(env, s, master, mountPoint);
    var s8 := UnmountStage(env, s7, mountPoint);
    CopyUnhalted(env, s, master, mountPoint);
    UnmountRan(env, s7, mountPoint);
    VerifyStageSucceeded(env, s8, manifest, partition, mountPoint);
    if env.HaltSeen(s7.t) { HaltStaysSeen(env, s7.t, s8.t); }
  }

  /** Step 8 that leaves the run going with halt unseen found halt clear and copied the whole master without error. */
  lemma CopyUnhalted(env: Env, s: Snapshot, master: seq<Entry>, mountPoint: string)
    ensures var r := CopyStage(env, s, master, mountPoint);
      var d := CopyDirSpec(env, s.t, RAMDIR_PATH, mountPoint, master, false);
      (s.state != Success ==> r.state != Success) &&
      (r.exit.None? && !env.HaltSeen(r.t) ==>
         s.exit.None? && !env.HaltSeen(s.t) && d.status == 0 && d.created.Some? &&
         r.bytesCopied == s.bytesCopied + d.counted && r.drive == Files(mountPoint, d.created.value) &&
         r.commands == s.commands && r.t == d.t && r.halt == s.halt)
  {
    var d := CopyDirSpec(env, s.t, RAMDIR_PATH, mountPoint, master, false);
    if env.HaltSeen(s.t) { HaltStaysSeen(env, s.t, d.t); }
    RamdirNotHidden();
  }

  /** Step 9 that leaves the run going ran its umount successfully. */
  lemma UnmountRan(env: Env, s: Snapshot, mountPoint: string)
    ensures var r := UnmountStage(env, s, mountPoint);
      (s.state != Success ==> r.state != Success) &&
      (r.exit.None? ==>
         s.exit.None? && !env.Fails(s.t) && r.commands == s.commands + [Umount(mountPoint)] && r.t == s.t + 1 &&
         r.halt == s.halt && r.bytesCopied == s.bytesCopied && r.drive == s.drive)
  {
  }

  /**
   * Step 10 that moves a run to SUCCESS found halt clear, had a manifest,
   * mounted, found every line good, and unmounted, with halt still unseen.
   */
  lemma VerifyStageSucceeded(env: Env, s: Snapshot, manifest: Option<string>, partition: string, mountPoint: string)
    requires s.state != Success
    requires VerifyStage(env, s, manifest, partition, mountPoint).state == Success
    ensures var r := VerifyStage(env, s, manifest, partition, mountPoint);
      s.exit.None? && !env.HaltSeen(s.t) && manifest.Some? && r.exit.None? && !env.HaltSeen(r.t) &&
      r.commands == s.commands + [Mount(partition, mountPoint), Umount(mountPoint)] &&
      r.halt == s.halt && r.bytesCopied == s.bytesCopied && r.drive == s.drive
  {
    VerifyPassed(env, s.t, manifest, partition, mountPoint, s.drive);
  }

  /**
   * Every way step 10 ends: a halt seen first only sets halt; otherwise a
   * passed verify gives SUCCESS, or FAILED with halt set when a halt was
   * seen by the end of it; a line without a tab exits with status 0; any
   * other end gives CRC_FAILED.
   */
  lemma VerifyStageOutcome(env: Env, s: Snapshot, manifest: Option<string>, partition: string, mountPoint: string)
    requires s.exit.None?
    ensures var r := VerifyStage(env, s, manifest, partition, mountPoint);
      var v := VerifySpec(env, s.t, manifest, partition, mountPoint, s.drive);
      (env.HaltSeen(s.t) ==> r == s.(halt := true)) &&
      (!env.HaltSeen(s.t) ==>
        r.commands == s.commands + v.commands && r.t == v.t && r.bytesCopied == s.bytesCopied &&
        (v.end == Passed && env.HaltSeen(v.t) ==> r.state == Failed && r.halt && r.exit.None?) &&
        (v.end == Passed && !env.HaltSeen(v.t) ==> r.state == Success && r.exit.None?) &&
        (v.end.NoTab? ==> r.exit == Some(0) && r.state == Verifying) &&
        (v.end != Passed && !v.end.NoTab? ==> r.state == CrcFailed && r.exit.None?))
  {
  }

  /** The RAM drive's master directory is not the hidden directory copy_directory skips. */
  lemma RamdirNotHidden()
    ensures Find(RAMDIR_PATH, SYSTEM_VOLUME_INFORMATION).None?
  {
    assert |RAMDIR_PATH| < |SYSTEM_VOLUME_INFORMATION|;
  }

  /**
   * Where steps 1 to 7 have got to after `i` steps when nothing fails and
   * halt is first seen by the poll after `k` commands: the first min(i, k)
   * commands of `plan` have run, one tick each, and halt is set once a poll
   * has seen it.
   */
  ghost predicate PreparedUpTo(s: Snapshot, base: seq<Command>, plan: seq<Command>, t0: nat, drive: map<string, seq<bv8>>, k: nat, i: nat)
    requires k <= |plan| && i <= |plan|
  {
    s.exit.None? && s.bytesCopied == 0 && s.drive == drive &&
    if i <= k then s.commands == base + plan[..i] && s.t == t0 + i && !s.halt
    else s.commands == base + plan[..k] && s.t == t0 + k && s.halt
  }

  /** Step 1 with nothing failing and halt first seen after `k` commands. */
  lemma StartUpTo(env: Env, s: Snapshot, plan: seq<Command>, mountPoint: string, k: nat)
    requires s.exit.None? && 0 < |plan| && plan[0] == Umount(mountPoint) && k <= |plan|
    requires env.fails == {} && env.haltAt == Some(s.t + k)
    ensures PreparedUpTo(StartStage(env, s, mountPoint), s.commands, plan, s.t, s.drive, k, 1)
  {
    assert plan[..1] == [Umount(mountPoint)];
  }

  /** A guarded step with nothing failing and halt first seen after `k` commands. */
  lemma GuardedUpTo(env: Env, s: Snapshot, state: Option<ChannelState>, base: seq<Command>, plan: seq<Command>,
                    t0: nat, drive: map<string, seq<bv8>>, k: nat, i: nat)
    requires k <= |plan| && i < |plan|
    requires env.fails == {} && env.haltAt == Some(t0 + k)
    requires PreparedUpTo(s, base, plan, t0, drive, k, i)
    ensures PreparedUpTo(GuardedStage(env, s, state, plan[i]), base, plan, t0, drive, k, i + 1)
  {
    if i < k {
      assert plan[..i + 1] == plan[..i] + [plan[i]];
      AppendAssoc(base, plan[..i], [plan[i]]);
    }
  }

  /**
   * Halt first seen by the poll after `k` <= 6 commands of steps 1 to 7,
   * with nothing failing: the run issues those `k` commands, skips the rest
   * and the copy, still unmounts, skips verify, and exits with status 0
   * with the record UNMOUNTING, halted, and its counter at 0.
   */
  lemma HaltBeforeCopy(env: Env, s: Snapshot, deviceName: string, devicePath: string, geometry: Geometry,
                       master: seq<Entry>, manifest: Option<string>, k: nat)
    requires s.exit.None? && RecordUsable(deviceName, devicePath) && k <= 6
    requires env.fails == {} && env.haltAt == Some(s.t + k)
    ensures var r := RunSpec(env, s, deviceName, devicePath, geometry, master, manifest);
      r.commands == s.commands + Preparation(deviceName, geometry)[..k] + [Umount(MountPointOf(deviceName).value)] &&
      r.state == Unmounting && r.halt && r.bytesCopied == 0 && r.drive == s.drive && r.exit == Some(0)
  {
    var mp := MountPointOf(deviceName).value;
    var part := PartitionOf(deviceName);
    var plan := Preparation(deviceName, geometry);
    PrepareUpTo(env, s, deviceName, mp, part, geometry, k);
    assert plan[..6] == plan;
    RunSpecStages(env, s, deviceName, devicePath, geometry, master, manifest);
    HaltedAfterPreparation(env, PrepareStages(env, s, deviceName, mp, part, geometry), master, mp, part, manifest);
  }

  /** Steps 1 to 7 with nothing failing and halt first seen after `k` commands. */
  lemma PrepareUpTo(env: Env, s: Snapshot, deviceName: string, mountPoint: string, partition: string, geometry: Geometry, k: nat)
    requires s.exit.None? && k <= 6
    requires env.fails == {} && env.haltAt == Some(s.t + k)
    ensures var plan := [Umount(mountPoint), Wipefs(deviceName), Parted(deviceName, geometry), Mkfs(partition), MkdirP(mountPoint), Mount(partition, mountPoint)];
      PreparedUpTo(PrepareStages(env, s, deviceName, mountPoint, partition, geometry), s.commands, plan, s.t, s.drive, k, 6)
  {
    var plan := [Umount(mountPoint), Wipefs(deviceName), Parted(deviceName, geometry), Mkfs(partition), MkdirP(mountPoint), Mount(partition, mountPoint)];
    var s1 := StartStage(env, s, mountPoint);
    var s2 := GuardedStage(env, s1, Some(Erasing), Wipefs(deviceName));
    var s3 := GuardedStage(env, s2, Some(Partitioning), Parted(deviceName, geometry));
    var s4 := GuardedStage(env, s3, Some(Formating), Mkfs(partition));
    var s5 := GuardedStage(env, s4, Some(Mounting), MkdirP(mountPoint));
    StartUpTo(env, s, plan, mountPoint, k);
    GuardedUpTo(env, s1, Some(Erasing), s.commands, plan, s.t, s.drive, k, 1);
    GuardedUpTo(env, s2, Some(Partitioning), s.commands, plan, s.t, s.drive, k, 2);
    GuardedUpTo(env, s3, Some(Formating), s.commands, plan, s.t, s.drive, k, 3);
    GuardedUpTo(env, s4, Some(Mounting), s.commands, plan, s.t, s.drive, k, 4);
    GuardedUpTo(env, s5, None, s.commands, plan, s.t, s.drive, k, 5);
  }

  /**
   * Steps 8 to 10 from a run in progress whose halt has been seen by the
   * poll before step 8: no copy, an unmount, no verify.
   */
  lemma HaltedAfterPreparation(env: Env, s: Snapshot, master: seq<Entry>, mountPoint: string, partition: string, manifest: Option<string>)
    requires s.exit.None? && env.HaltSeen(s.t) && env.fails == {}
    ensures var r := VerifyStage(env, UnmountStage(env, CopyStage(env, s, master, mountPoint), mountPoint), manifest, partition, mountPoint);
      r.commands == s.commands + [Umount(mountPoint)] && r.state == Unmounting && r.halt && r.exit.None? &&
      r.bytesCopied == s.bytesCopied && r.drive == s.drive
  {
    HaltStaysSeen(env, s.t, s.t + 1);
  }

  /**
   * Where steps 1 to 7 have got to after `i` steps when halt is never set
   * and only the command after `j` others fails: the first min(i, j + 1)
   * commands of `plan` have run, and once the failing one has, the run has
   * exited through failed.
   */
  ghost predicate FailedUpTo(s: Snapshot, base: seq<Command>, plan: seq<Command>, t0: nat, j: nat, i: nat)
    requires j < |plan| && i <= |plan|
  {
    s.bytesCopied == 0 &&
    if i <= j then s.commands == base + plan[..i] && s.t == t0 + i && s.exit.None? && !s.halt
    else s.commands == base + plan[..j + 1] && s.t == t0 + j + 1 && s.exit == Some(1) && s.state == Failed && s.halt
  }

  /** A guarded step when halt is never set and only the command after `j` others fails. */
  lemma GuardedFailing(env: Env, s: Snapshot, state: Option<ChannelState>, base: seq<Command>, plan: seq<Command>,
                       t0: nat, j: nat, i: nat)
    requires j < |plan| && i < |plan|
    requires env.fails == {t0 + j} && env.haltAt.None?
    requires FailedUpTo(s, base, plan, t0, j, i)
    ensures FailedUpTo(GuardedStage(env, s, state, plan[i]), base, plan, t0, j, i + 1)
  {
    if i <= j {
      assert plan[..i + 1] == plan[..i] + [plan[i]];
      AppendAssoc(base, plan[..i], [plan[i]]);
    }
  }

  /**
   * When the wipefs, parted, mkfs, mkdir or mount of steps 3 to 7 fails
   * (the command after `j` others, 1 <= j <= 5) and nothing else fails or
   * halts, the run stops right there: no later command runs, not even the
   * unmount, and the process exits with status 1, the record FAILED and
   * halted.
   */
  lemma FailureDuringPreparation(env: Env, s: Snapshot, deviceName: string, devicePath: string, geometry: Geometry,
                                 master: seq<Entry>, manifest: Option<string>, j: nat)
    requires s.exit.None? && RecordUsable(deviceName, devicePath) && 1 <= j <= 5
    requires env.fails == {s.t + j} && env.haltAt.None?
    ensures var r := RunSpec(env, s, deviceName, devicePath, geometry, master, manifest);
      r.commands == s.commands + Preparation(deviceName, geometry)[..j + 1] &&
      r.state == Failed && r.halt && r.bytesCopied == 0 && r.exit == Some(1)
  {
    var mp := MountPointOf(deviceName).value;
    var part := PartitionOf(deviceName);
    PrepareFailing(env, s, deviceName, mp, part, geometry, j);
    RunSpecStages(env, s, deviceName, devicePath, geometry, master, manifest);
  }

  /** Steps 1 to 7 when halt is never set and only the command after `j` others fails, 1 <= j <= 5. */
  lemma PrepareFailing(env: Env, s: Snapshot, deviceName: string, mountPoint: string, partition: string, geometry: Geometry, j: nat)
    requires s.exit.None? && 1 <= j <= 5
    requires env.fails == {s.t + j} && env.haltAt.None?
    ensures var plan := [Umount(mountPoint), Wipefs(deviceName), Parted(deviceName, geometry), Mkfs(partition), MkdirP(mountPoint), Mount(partition, mountPoint)];
      FailedUpTo(PrepareStages(env, s, deviceName, mountPoint, partition, geometry), s.commands, plan, s.t, j, 6)
  {
    var plan := [Umount(mountPoint), Wipefs(deviceName), Parted(deviceName, geometry), Mkfs(partition), MkdirP(mountPoint), Mount(partition, mountPoint)];
    var s1 := StartStage(env, s, mountPoint);
    var s2 := GuardedStage(env, s1, Some(Erasing), Wipefs(deviceName));
    var s3 := GuardedStage(env, s2, Some(Partitioning), Parted(deviceName, geometry));
    var s4 := GuardedStage(env, s3, Some(Formating), Mkfs(partition));
    var s5 := GuardedStage(env, s4, Some(Mounting), MkdirP(mountPoint));
    assert plan[..1] == [Umount(mountPoint)];
    assert FailedUpTo(s1, s.commands, plan, s.t, j, 1);
    GuardedFailing(env, s1, Some(Erasing), s.commands, plan, s.t, j, 1);
    GuardedFailing(env, s2, Some(Partitioning), s.commands, plan, s.t, j, 2);
    GuardedFailing(env, s3, Some(Formating), s.commands, plan, s.t, j, 3);
    GuardedFailing(env, s4, Some(Mounting), s.commands, plan, s.t, j, 4);
    GuardedFailing(env, s5, None, s.commands, plan, s.t, j, 5);
  }

  /** Steps 1 to 7 with nothing failing and halt never set run all six commands. */
  lemma PrepareUndisturbed(env: Env, s: Snapshot, deviceName: string, mountPoint: string, partition: string, geometry: Geometry)
    requires Undisturbed(env) && s.exit.None?
    ensures var s6 := PrepareStages(env, s, deviceName, mountPoint, partition, geometry);
      s6.commands == s.commands + [Umount(mountPoint), Wipefs(deviceName), Parted(deviceName, geometry),
                                   Mkfs(partition), MkdirP(mountPoint), Mount(partition, mountPoint)] &&
      s6.t == s.t + 6 && s6.exit.None? && !s6.halt && s6.bytesCopied == 0 && s6.drive == s.drive
  {
    var s1 := StartStage(env, s, mountPoint);
    var s2 := GuardedStage(env, s1, Some(Erasing), Wipefs(deviceName));
    var s3 := GuardedStage(env, s2, Some(Partitioning), Parted(deviceName, geometry));
    var s4 := GuardedStage(env, s3, Some(Formating), Mkfs(partition));
    var s5 := GuardedStage(env, s4, Some(Mounting), MkdirP(mountPoint));
    assert s1.exit.None? && s2.exit.None? && s3.exit.None? && s4.exit.None? && s5.exit.None?;
    PreparedWithoutHalt(env, s, deviceName, mountPoint, partition, geometry);
  }

  /**
   * Steps 8 to 10 with nothing failing and halt never set, from a run in
   * progress with halt clear: the copy produces the reference copy of the
   * master, and verify's verdict is the audit of the manifest against it.
   */
  lemma UndisturbedAfterPreparation(env: Env, s: Snapshot, master: seq<Entry>, mountPoint: string, partition: string,
                                     manifest: Option<string>, base: seq<Command>)
    requires Undisturbed(env) && s.exit.None? && !s.halt && s.bytesCopied == 0 && s.commands == base && Listable(RAMDIR_PATH, master)
    ensures var r := Finish(VerifyStage(env, UnmountStage(env, CopyStage(env, s, master, mountPoint), mountPoint), manifest, partition, mountPoint));
      var m := Mirror(RAMDIR_PATH, mountPoint, master, false);
      m.Some? && r.bytesCopied == m.value.counted && r.drive == Files(mountPoint, m.value.children) && !r.halt && r.exit == Some(0) &&
      UndisturbedVerdict(r.commands, r.state, r.drive, base, mountPoint, partition, manifest)
  {
    var s9 := VerifyStage(env, UnmountStage(env, CopyStage(env, s, master, mountPoint), mountPoint), manifest, partition, mountPoint);
    UndisturbedCopyAndVerify(env, s, master, mountPoint, partition, manifest);
    FinishUndisturbed(s9, s, Mirror(RAMDIR_PATH, mountPoint, master, false), mountPoint, partition, manifest, base);
  }

  lemma FinishUndisturbed(r: Snapshot, s: Snapshot, m: Option<Tally>, mountPoint: string, partition: string,
                          manifest: Option<string>, base: seq<Command>)
    requires m.Some? && r.bytesCopied == s.bytesCopied + m.value.counted && r.drive == Files(mountPoint, m.value.children) && !r.halt
    requires (r.exit.Some? ==> r.exit == Some(0)) && UndisturbedVerdict(r.commands, r.state, r.drive, s.commands, mountPoint, partition, manifest)
    requires s.bytesCopied == 0 && s.commands == base
    ensures var f := Finish(r);
      f.bytesCopied == m.value.counted && f.drive == Files(mountPoint, m.value.children) && !f.halt && f.exit == Some(0) &&
      UndisturbedVerdict(f.commands, f.state, f.drive, base, mountPoint, partition, manifest)
  {
  }

  /** Steps 8 to 10 with nothing failing and halt never set, from a run in progress with halt clear. */
  lemma UndisturbedCopyAndVerify(env: Env, s: Snapshot, master: seq<Entry>, mountPoint: string, partition: string, manifest: Option<string>)
    requires Undisturbed(env) && s.exit.None? && !s.halt && Listable(RAMDIR_PATH, master)
    ensures var r := VerifyStage(env, UnmountStage(env, CopyStage(env, s, master, mountPoint), mountPoint), manifest, partition, mountPoint);
      var m := Mirror(RAMDIR_PATH, mountPoint, master, false);
      m.Some? && r.bytesCopied == s.bytesCopied + m.value.counted && r.drive == Files(mountPoint, m.value.children) && !r.halt &&
      (r.exit.Some? ==> r.exit == Some(0)) &&
      UndisturbedVerdict(r.commands, r.state, r.drive, s.commands, mountPoint, partition, manifest)
  {
    var s7 := CopyStage(env, s, master, mountPoint);
    var s8 := UnmountStage(env, s7, mountPoint);
    CopyUndisturbed(env, s, master, mountPoint);
    VerifyStageUndisturbed(env, s8, manifest, partition, mountPoint);
    if manifest.Some? {
      var a := Audit(Checks(ReadLines(manifest.value), mountPoint, s8.drive), 0);
      var tail := if a == Passed then [Umount(mountPoint)] else [];
      TwoThenRest(s.commands, Umount(mountPoint), Mount(partition, mountPoint), tail);
    }
  }

  /**
   * How an undisturbed run ends after the commands `base` of its
   * preparation: without a manifest in CRC_FAILED after one more unmount;
   * with one, after unmount and mount, in the state the audit of the
   * manifest against the drive decides (SUCCESS, with a final unmount, when
   * it passes; CRC_FAILED at a mismatch; VERIFYING at a line without a tab).
   */
  ghost predicate UndisturbedVerdict(commands: seq<Command>, state: ChannelState, drive: map<string, seq<bv8>>, base: seq<Command>,
                                     mountPoint: string, partition: string, manifest: Option<string>)
  {
    match manifest
    case None => state == CrcFailed && commands == base + [Umount(mountPoint)]
    case Some(text) =>
      var a := Audit(Checks(ReadLines(text), mountPoint, drive), 0);
      commands == base + [Umount(mountPoint), Mount(partition, mountPoint)] + (if a == Passed then [Umount(mountPoint)] else []) &&
      state == (match a case Passed => Success case NoTab(_) => Verifying case _ => CrcFailed)
  }

  lemma TwoThenRest<T>(a: seq<T>, x: T, y: T, rest: seq<T>)
    ensures (a + [x]) + ([y] + rest) == a + [x, y] + rest
  {
    AppendAssoc(a + [x], [y], rest);
    assert a + [x] + [y] == a + [x, y];
  }

  /** Step 8 with nothing failing and halt never set copies the reference copy of the master. */
  lemma CopyUndisturbed(env: Env, s: Snapshot, master: seq<Entry>, mountPoint: string)
    requires Undisturbed(env) && s.exit.None? && Listable(RAMDIR_PATH, master)
    ensures var r := CopyStage(env, s, master, mountPoint);
      var m := Mirror(RAMDIR_PATH, mountPoint, master, false);
      m.Some? && r.exit.None? && r.state == Copying && r.halt == s.halt && r.commands == s.commands &&
      r.bytesCopied == s.bytesCopied + m.value.counted && r.drive == Files(mountPoint, m.value.children)
  {
    RamdirNotHidden();
    CopyDirUndisturbed(env, s.t, RAMDIR_PATH, mountPoint, master, false);
  }

  /**
   * Step 10 with nothing failing and halt never set, after a run in
   * progress with halt clear: its verdict is the audit of the manifest
   * against the drive.
   */
  lemma VerifyStageUndisturbed(env: Env, s: Snapshot, manifest: Option<string>, partition: string, mountPoint: string)
    requires Undisturbed(env) && s.exit.None? && !s.halt
    ensures var r := VerifyStage(env, s, manifest, partition, mountPoint);
      !r.halt && r.bytesCopied == s.bytesCopied && r.drive == s.drive &&
      match manifest
      case None => r.state == CrcFailed && r.exit.None? && r.commands == s.commands
      case Some(text) =>
        var a := Audit(Checks(ReadLines(text), mountPoint, s.drive), 0);
        r.commands == s.commands + ([Mount(partition, mountPoint)] + (if a == Passed then [Umount(mountPoint)] else [])) &&
        r.state == (match a case Passed => Success case NoTab(_) => Verifying case _ => CrcFailed) &&
        r.exit == (if a.NoTab? then Some(0) else None)
  {
    if manifest.Some? {
      VerifyUndisturbed(env, s.t, manifest.value, partition, mountPoint, s.drive);
    }
  }

  /**
   * A whole run with nothing failing and halt never set, on a usable record
   * and a master whose every level can be listed: it runs every command,
   * copies the reference copy of the master, never sets halt, exits with
   * status 0, and ends in SUCCESS exactly when the audit of the manifest
   * against the copy passes (CRC_FAILED at a mismatch or without a
   * manifest, VERIFYING at a line without a tab).
   */
  lemma UndisturbedRun(env: Env, s: Snapshot, deviceName: string, devicePath: string, geometry: Geometry,
                       master: seq<Entry>, manifest: Option<string>)
    requires Undisturbed(env) && s.exit.None? && RecordUsable(deviceName, devicePath) && Listable(RAMDIR_PATH, master)
    ensures var r := RunSpec(env, s, deviceName, devicePath, geometry, master, manifest);
      var mp := MountPointOf(deviceName).value;
      var m := Mirror(RAMDIR_PATH, mp, master, false);
      m.Some? && r.bytesCopied == m.value.counted && r.drive == Files(mp, m.value.children) && !r.halt && r.exit == Some(0) &&
      UndisturbedVerdict(r.commands, r.state, r.drive, s.commands + Preparation(deviceName, geometry), mp, PartitionOf(deviceName), manifest)
  {
    var mp := MountPointOf(deviceName).value;
    var part := PartitionOf(deviceName);
    PrepareUndisturbed(env, s, deviceName, mp, part, geometry);
    RunSpecStages(env, s, deviceName, devicePath, geometry, master, manifest);
    var s6 := PrepareStages(env, s, deviceName, mp, part, geometry);
    UndisturbedAfterPreparation(env, s6, master, mp, part, manifest, s.commands + Preparation(deviceName, geometry));
  }

  /** Step 10 ends a sound run properly exited, or with SUCCESS only when halt is clear and unseen. */
  lemma VerifyStageSound(env: Env, s: Snapshot, manifest: Option<string>, partition: string, mountPoint: string)
    requires Running(env, s) || Exited(s)
    ensures var r := VerifyStage(env, s, manifest, partition, mountPoint);
      Exited(r) || (r.exit.None? && (r.state == Success ==> !r.halt && !env.HaltSeen(r.t)))
  {
    if Running(env, s) && !env.HaltSeen(s.t) {
      var v := VerifySpec(env, s.t, manifest, partition, mountPoint, s.drive);
      if s.halt {
        HaltStaysSeen(env, s.t, v.t);
      }
    }
  }

  // ---------------------------------------------------------------------------
  // The worker process
  // ---------------------------------------------------------------------------

  /**
   * compute_crc32 of a file whose contents are `file` (None when it cannot be
   * opened, where the result is 0): feed bytes through the table until end of
   * file or CRC_SIZE bytes.
   */
  method ComputeCrc32(table: array<bv32>, file: Option<seq<bv8>>) returns (crc: bv32)
    requires IsCrcTable(table)
    ensures file.None? ==> crc == 0
    ensures file.Some? ==> crc == Crc(file.value)
  {
    if file.None? {
      return 0;
    }
    var data := file.value;
    crc := INIT;
    var crcBytes := 0;
    while crcBytes < |data| && crcBytes < CRC_SIZE
      invariant crcBytes <= Min(|data|, CRC_SIZE)
      invariant crc == Update(INIT, data[..crcBytes])
    {
      UpdateSnoc(INIT, data[..crcBytes], data[crcBytes]);
      assert data[..crcBytes] + [data[crcBytes]] == data[..crcBytes + 1];
      crc := StepByTable(table, crc, data[crcBytes]);
      crcBytes := crcBytes + 1;
    }
    crc := crc ^ XOROUT;
  }

  /** copy_directory from the RAM drive to `mountPoint` without a manifest sink, from tick `t`. */
  method CopyMaster(env: Env, t: nat, master: seq<Entry>, mountPoint: string, table: array<bv32>) returns (d: DirResult)
    requires IsCrcTable(table)
    ensures d == CopyDirSpec(env, t, RAMDIR_PATH, mountPoint, master, false)
  {
    var copier := new Copier(env, t, 0);
    var status, created := copier.CopyDirectory(RAMDIR_PATH, mountPoint, master, false, table);
    d := DirResult(status, created, copier.bytesCopied, copier.manifest, copier.tick);
  }

  /**
   * One turn of verify's loop: fgets a line, split it at the tab, and
   * compare its CRC with compute_crc32 of the file under the mount point.
   */
  method ReadAndCheck(env: Env, t: nat, text: string, mountPoint: string, drive: map<string, seq<bv8>>, i: nat, table: array<bv32>)
    returns (o: LineOutcome)
    requires IsCrcTable(table)
    ensures o == NextLine(env, t, text, mountPoint, drive, i)
  {
    var next := Fgets(text);
    if next.None? {
      return EndOfManifest;
    }
    var parsed := ParseCrcLine(next.value.0);
    if parsed.None? {
      return Stop(NoTab(i), t);      // parse_crc_file ends the process with status 0
    }
    var path := JoinPath(mountPoint, parsed.value.0);
    var file := if env.Fails(t) || path !in drive then None else Some(drive[path]);
    var actual := ComputeCrc32(table, file);
    if parsed.value.1 != actual as int {
      return Stop(Mismatch(i), t + 1);
    }
    return Next(next.value.1, t + 1);
  }

  /** The record `rec` with the fields the worker writes taken from `s`. */
  function Written(rec: ChannelInfo, s: Snapshot): (r: ChannelInfo)
    ensures r.state == s.state && r.halt == s.halt && r.bytesCopied == s.bytesCopied
    ensures r.deviceName == rec.deviceName && r.devicePath == rec.devicePath && r.deviceId == rec.deviceId
  {
    rec.(state := s.state, halt := s.halt, bytesCopied := s.bytesCopied)
  }

  /** The fields of a record that only the supervisor and the hot-plug monitor write. */
  function Identity(rec: ChannelInfo): (int, int, int, int, int, string, string) {
    (rec.deviceId, rec.hubNumber, rec.portNumber, rec.pid, rec.startTime, rec.deviceName, rec.devicePath)
  }

  /**
   * One worker process attached to record `id` of the shared segment `sd`.
   * Besides the record, it keeps the commands it has run, the oracle's tick,
   * the files on its drive, and its exit status once it has exited.
   */
  class Client {
    const sd: SharedData
    const id: nat
    const env: Env
    var tick: nat
    var commands: seq<Command>
    var drive: map<string, seq<bv8>>
    var exit: Option<int>

    ghost predicate Valid()
      reads this, sd
    {
      sd.Valid() && id < MAX_USB_CHANNELS
    }

    /** Where the run has got to. */
    ghost function Snap(): Snapshot
      reads this, sd, sd.channelInfo
      requires Valid()
    {
      var rec := sd.channelInfo[id];
      Snapshot(rec.state, rec.halt, rec.bytesCopied, exit, commands, tick, drive)
    }

    /**
     * Since the method began, no other record changed, and the worker's own
     * record changed only in the fields it writes.
     */
    twostate predicate OnlyOwnRecord()
      reads this, sd, sd.channelInfo
      requires Valid()
    {
      (forall j | 0 <= j < MAX_USB_CHANNELS && j != id :: sd.channelInfo[j] == old(sd.channelInfo[j])) &&
      Identity(sd.channelInfo[id]) == Identity(old(sd.channelInfo[id]))
    }

    constructor (sd: SharedData, id: nat, env: Env)
      requires sd.Valid() && id < MAX_USB_CHANNELS
      ensures Valid() && this.sd == sd && this.id == id && this.env == env
      ensures tick == 0 && commands == [] && drive == map[] && exit == None
    {
      this.sd := sd;
      this.id := id;
      this.env := env;
      tick := 0;
      commands := [];
      drive := map[];
      exit := None;
    }

    method SetRecord(state: ChannelState, halt: bool, bytesCopied: int)
      requires Valid()
      modifies sd.channelInfo
      ensures Valid()
      ensures Snap() == old(Snap()).(state := state, halt := halt, bytesCopied := bytesCopied)
      ensures OnlyOwnRecord()
    {
      sd.channelInfo[id] := sd.channelInfo[id].(state := state, halt := halt, bytesCopied := bytesCopied);
    }

    /** A read of the halt flag: it finds whatever other threads have set by now. */
    method PollHalt() returns (halt: bool)
      requires Valid()
      modifies sd.channelInfo
      ensures Valid()
      ensures halt == env.HaltSeen(tick)
      ensures Snap() == old(Snap()).(halt := old(Snap()).halt || halt)
      ensures OnlyOwnRecord()
    {
      halt := env.HaltSeen(tick);
      if halt {
        sd.channelInfo[id] := sd.channelInfo[id].(halt := true);
      }
    }

    /** Run an external command at the next tick; true when it exits with status 0. */
    method Execute(cmd: Command) returns (ok: bool)
      modifies this
      ensures ok == !env.Fails(old(tick)) && tick == old(tick) + 1 && commands == old(commands) + [cmd]
      ensures drive == old(drive) && exit == old(exit)
    {
      ok := !env.Fails(tick);
      commands := commands + [cmd];
      tick := tick + 1;
    }

    /** failed: mark the record FAILED and halted, and exit with status 1. */
    method Failed()
      requires Valid()
      modifies this, sd.channelInfo
      ensures Valid()
      ensures Snap() == Fail(old(Snap()))
      ensures OnlyOwnRecord()
    {
      var rec := sd.channelInfo[id];
      SetRecord(ChannelState.Failed, true, rec.bytesCopied);
      exit := Some(1);
    }

    method Start(mountPoint: string)
      requires Valid()
      modifies this, sd.channelInfo
      ensures Valid()
      ensures Snap() == StartStage(env, old(Snap()), mountPoint)
      ensures OnlyOwnRecord()
    {
      if exit.Some? { return; }
      SetRecord(Starting, false, 0);
      var halt := PollHalt();
      if !halt {
        var _ := Execute(Umount(mountPoint));   // a drive that is not mounted is no error
      }
    }

    method Guarded(state: Option<ChannelState>, cmd: Command)
      requires Valid()
      modifies this, sd.channelInfo
      ensures Valid()
      ensures Snap() == GuardedStage(env, old(Snap()), state, cmd)
      ensures OnlyOwnRecord()
    {
      if exit.Some? { return; }
      var halt := PollHalt();
      if halt { return; }
      if state.Some? {
        var rec := sd.channelInfo[id];
        SetRecord(state.value, rec.halt, rec.bytesCopied);
      }
      var ok := Execute(cmd);
      if !ok { Failed(); }
    }

    /**
     * Step 8. The table is filled here so that the copy engine's CRC is the
     * real one; the worker passes no manifest sink, so that CRC is discarded.
     */
    method Copy(master: seq<Entry>, mountPoint: string, table: array<bv32>)
      requires Valid() && table.Length == 256
      modifies this, sd.channelInfo, table
      ensures Valid()
      ensures Snap() == CopyStage(env, old(Snap()), master, mountPoint)
      ensures OnlyOwnRecord()
    {
      if exit.Some? { return; }
      var halt := PollHalt();
      if halt { return; }
      InitialiseCrcTable(table);
      var d := CopyMaster(env, tick, master, mountPoint, table);
      tick := d.t;
      drive := if d.created.Some? then Files(mountPoint, d.created.value) else map[];
      var rec := sd.channelInfo[id];
      SetRecord(Copying, rec.halt, rec.bytesCopied + d.counted);
      if d.status != 0 { Failed(); }
    }

    method Unmount(mountPoint: string)
      requires Valid()
      modifies this, sd.channelInfo
      ensures Valid()
      ensures Snap() == UnmountStage(env, old(Snap()), mountPoint)
      ensures OnlyOwnRecord()
    {
      if exit.Some? { return; }
      var rec := sd.channelInfo[id];
      SetRecord(Unmounting, rec.halt, rec.bytesCopied);
      var ok := Execute(Umount(mountPoint));
      if !ok { Failed(); }
    }
  
    /**
     * verify: fill the CRC table, open the manifest, mount the partition
     * unless halt is set, check each line while halt stays clear, and unmount.
     */
    method Verify(manifest: Option<string>, partition: string, mountPoint: string, table: array<bv32>) returns (end: VerifyEnd)
      requires Valid() && table.Length == 256
      modifies this, sd.channelInfo, table
      ensures Valid()
      ensures var v := VerifySpec(env, old(tick), manifest, partition, mountPoint, old(drive));
        end == v.end &&
        Snap() == old(Snap()).(halt := old(Snap()).halt || v.haltSeen, commands := old(commands) + v.commands, t := v.t)
      ensures OnlyOwnRecord()
    {
      InitialiseCrcTable(table);
      end := MountAndCheck(manifest, partition, mountPoint, table);
    }

    /** verify once the table is filled: open the manifest, mount unless halt is set, check, and unmount. */
    method MountAndCheck(manifest: Option<string>, partition: string, mountPoint: string, table: array<bv32>) returns (end: VerifyEnd)
      requires Valid() && IsCrcTable(table)
      modifies this, sd.channelInfo
      ensures Valid()
      ensures var v := VerifySpec(env, old(tick), manifest, partition, mountPoint, old(drive));
        end == v.end &&
        Snap() == old(Snap()).(halt := old(Snap()).halt || v.haltSeen, commands := old(commands) + v.commands, t := v.t)
      ensures OnlyOwnRecord()
    {
      if manifest.None? {
        return NoManifest;
      }
      var halt := PollHalt();
      if !halt {
        var ok := Execute(Mount(partition, mountPoint));
        if !ok {
          return MountFailed;
        }
      }
      ghost var c1, t1 := commands, tick;
      end := CheckAndUnmount(manifest.value, mountPoint, table);
      ghost var v := Mounted(env, t1, manifest.value, mountPoint, old(drive));
      assert VerifySpec(env, old(tick), manifest, partition, mountPoint, old(drive)) ==
        if halt then v else v.(commands := [Mount(partition, mountPoint)] + v.commands);
      AppendAssoc(old(commands), c1[|old(commands)|..], commands[|c1|..]);
    }

    /** verify from the loop on: check the lines while halt stays clear, then unmount. */
    method CheckAndUnmount(text: string, mountPoint: string, table: array<bv32>) returns (end: VerifyEnd)
      requires Valid() && IsCrcTable(table)
      modifies this, sd.channelInfo
      ensures Valid()
      ensures var v := Mounted(env, old(tick), text, mountPoint, old(drive));
        end == v.end &&
        Snap() == old(Snap()).(halt := old(Snap()).halt || v.haltSeen, commands := old(commands) + v.commands, t := v.t)
      ensures OnlyOwnRecord()
    {
      var r := CheckAll(text, mountPoint, table);
      if r.Stopped? {
        return r.end;
      }
      var ok := Execute(Umount(mountPoint));
      end := if ok then Passed else UnmountFailed;
    }

    /** verify's loop over the lines of the manifest `text`, while halt stays clear. */
    method CheckAll(text: string, mountPoint: string, table: array<bv32>) returns (r: LoopEnd)
      requires Valid() && IsCrcTable(table)
      modifies this, sd.channelInfo
      ensures Valid()
      ensures r == CheckLines(env, old(tick), text, mountPoint, old(drive), 0)
      ensures Snap() == old(Snap()).(halt := old(Snap()).halt || (r.Exhausted? && r.halted), t := r.t)
      ensures OnlyOwnRecord()
    {
      ghost var s0 := Snap();
      var rest := text;
      var i := 0;
      while true
        invariant Valid() && OnlyOwnRecord()
        invariant Snap() == s0.(t := tick)
        invariant CheckLines(env, tick, rest, mountPoint, drive, i) == CheckLines(env, s0.t, text, mountPoint, drive, 0)
        decreases |rest|
      {
        var halt := PollHalt();
        if halt {
          return Exhausted(tick, true);
        }
        var o := ReadAndCheck(env, tick, rest, mountPoint, drive, i, table);
        if o.EndOfManifest? {
          return Exhausted(tick, false);
        }
        tick := o.t;
        if o.Stop? {
          return Stopped(o.end, o.t);
        }
        rest := o.rest;
        i := i + 1;
      }
    }

    method Check(manifest: Option<string>, partition: string, mountPoint: string, table: array<bv32>)
      requires Valid() && table.Length == 256
      modifies this, sd.channelInfo, table
      ensures Valid()
      ensures Snap() == VerifyStage(env, old(Snap()), manifest, partition, mountPoint)
      ensures OnlyOwnRecord()
    {
      if exit.Some? { return; }
      var halt := PollHalt();
      if halt { return; }
      var rec := sd.channelInfo[id];
      SetRecord(Verifying, rec.halt, rec.bytesCopied);
      var end := Verify(manifest, partition, mountPoint, table);
      rec := sd.channelInfo[id];
      match end {
        case Passed =>
          halt := PollHalt();
          SetRecord(if halt then ChannelState.Failed else Success, halt || rec.halt, rec.bytesCopied);
        case NoTab(_) =>
          exit := Some(0);
        case _ =>
          SetRecord(CrcFailed, rec.halt, rec.bytesCopied);
      }
    }

    /**
     * The worker's main program once it is attached to its record: check the
     * record, derive the mount point and partition, and run the stages.
     */
    method Run(deviceSize: nat, pick: nat, master: seq<Entry>, manifest: Option<string>, table: array<bv32>)
      requires Valid() && pick < 16 && table.Length == 256 && exit.None?
      modifies this, sd.channelInfo, table
      ensures Valid()
      ensures Snap() == RunSpec(env, old(Snap()), old(sd.channelInfo[id].deviceName), old(sd.channelInfo[id].devicePath),
                                PartitionGeometry(deviceSize, sd.totalSize, pick), master, manifest)
      ensures OnlyOwnRecord()
    {
      var name := sd.channelInfo[id].deviceName;
      var path := sd.channelInfo[id].devicePath;
      if |name| < 4 || |path| < 2 || LastIndexOf(name, '/').None? {
        Failed();
        return;
      }
      var mountPoint := MountPointOf(name).value;
      var partition := PartitionOf(name);
      var geometry := PartitionGeometry(deviceSize, sd.totalSize, pick);
      RunSpecStages(env, Snap(), name, path, geometry, master, manifest);
      RunStages(name, mountPoint, partition, geometry, master, manifest, table);
    }

    /** Steps 1 to 11 on a usable record. */
    method RunStages(name: string, mountPoint: string, partition: string, geometry: Geometry,
                     master: seq<Entry>, manifest: Option<string>, table: array<bv32>)
      requires Valid() && table.Length == 256
      modifies this, sd.channelInfo, table
      ensures Valid()
      ensures var s6 := PrepareStages(env, old(Snap()), name, mountPoint, partition, geometry);
        Snap() == Finish(VerifyStage(env, UnmountStage(env, CopyStage(env, s6, master, mountPoint), mountPoint), manifest, partition, mountPoint))
      ensures OnlyOwnRecord()
    {
      Prepare(name, mountPoint, partition, geometry);
      Copy(master, mountPoint, table);
      Unmount(mountPoint);
      Check(manifest, partition, mountPoint, table);
      if exit.None? {
        exit := Some(0);
      }
    }

    /** Steps 1 to 7: start, then erase, partition, format, create the mount point and mount, each unless halt is set. */
    method Prepare(name: string, mountPoint: string, partition: string, geometry: Geometry)
      requires Valid()
      modifies this, sd.channelInfo
      ensures Valid()
      ensures Snap() == PrepareStages(env, old(Snap()), name, mountPoint, partition, geometry)
      ensures OnlyOwnRecord()
    {
      Start(mountPoint);
      Guarded(Some(Erasing), Wipefs(name));
      Guarded(Some(Partitioning), Parted(name, geometry));
      Guarded(Some(Formating), Mkfs(partition));
      Guarded(Some(Mounting), MkdirP(mountPoint));
      Guarded(None, Mount(partition, mountPoint));
    }
  }

  /** The snapshot of a record before its worker starts. */
  function Initial(rec: ChannelInfo): Snapshot {
    Snapshot(rec.state, rec.halt, rec.bytesCopied, None, [], 0, map[])
  }

  /**
   * The worker process for `deviceId`: a device id outside 0..13 exits with
   * status 1 before any record is touched; otherwise the run is RunSpec on
   * that record and no other record changes.
   */
  method RunClient(sd: SharedData, deviceId: int, env: Env, deviceSize: nat, pick: nat, master: seq<Entry>,
                   manifest: Option<string>, table: array<bv32>) returns (exitStatus: int, commands: seq<Command>)
    requires sd.Valid() && pick < 16 && table.Length == 256
    modifies sd.channelInfo, table
    ensures !(0 <= deviceId < MAX_USB_CHANNELS) ==> exitStatus == 1 && commands == [] && sd.channelInfo[..] == old(sd.channelInfo[..])
    ensures 0 <= deviceId < MAX_USB_CHANNELS ==>
      var rec := old(sd.channelInfo[deviceId]);
      var r := RunSpec(env, Initial(rec), rec.deviceName, rec.devicePath, PartitionGeometry(deviceSize, sd.totalSize, pick), master, manifest);
      exitStatus == r.exit.value && commands == r.commands &&
      sd.channelInfo[..] == old(sd.channelInfo[..])[deviceId := Written(rec, r)]
  {
    if deviceId < 0 || deviceId >= MAX_USB_CHANNELS {
      return 1, [];
    }
    var client := new Client(sd, deviceId, env);
    client.Run(deviceSize, pick, master, manifest, table);
    assert sd.channelInfo[..] == old(sd.channelInfo[..])[deviceId := Written(old(sd.channelInfo[deviceId]), client.Snap())];
    return client.exit.value, client.commands;
  }
}
