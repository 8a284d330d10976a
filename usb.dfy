/**
 * The hot-plug monitor (usb.c): the path lookups, and one pass of the
 * monitor's loop that reconciles the channel table with the removable
 * drives present.
 *
 * The scan of /sys/block (the "sd" prefix, the removable flag, the link
 * resolved to a port path) is replaced by its result: the (name, path)
 * pairs of the drives it accepts, in the order the directory lists them.
 */
module Usb {
  import opened Globals
  import opened ControlPlane

  // ---------------------------------------------------------------------------
  // Lookups
  // ---------------------------------------------------------------------------

  /** A segment whose discovered-port count is a count of slots. */
  ghost predicate TableValid(sd: SharedData)
    reads sd
  {
    sd.Valid() && 0 <= sd.channelsActive <= MAX_USB_CHANNELS
  }

  /** The lowest slot from `i` up to `active` whose stored path is `path`. */
  function IndexOfPath(records: seq<ChannelInfo>, active: nat, path: string, i: nat): (r: Option<nat>)
    requires i <= active <= |records|
    ensures r.Some? ==> i <= r.value < active && records[r.value].devicePath == path
    ensures r.Some? ==> forall k | i <= k < r.value :: records[k].devicePath != path
    ensures r.None? ==> forall k | i <= k < active :: records[k].devicePath != path
    decreases active - i
  {
    if i == active then None
    else if records[i].devicePath == path then Some(i)
    else IndexOfPath(records, active, path, i + 1)
  }

  /** The C result of a lookup: the slot, or -1. */
  function IdOf(r: Option<nat>): int {
    if r.Some? then r.value else -1
  }

  /** get_device_id_from_path: the lowest discovered slot holding `path`, or -1. */
  method GetDeviceIdFromPath(sd: SharedData, path: string) returns (id: int)
    requires TableValid(sd)
    ensures id == IdOf(IndexOfPath(sd.channelInfo[..], sd.channelsActive, path, 0))
  {
    var deviceId := 0;
    while deviceId < sd.channelsActive
      invariant 0 <= deviceId <= sd.channelsActive
      invariant IndexOfPath(sd.channelInfo[..], sd.channelsActive, path, 0) ==
                IndexOfPath(sd.channelInfo[..], sd.channelsActive, path, deviceId)
    {
      if sd.channelInfo[deviceId].devicePath == path {
        return deviceId;
      }
      deviceId := deviceId + 1;
    }
    return -1;
  }

  /** get_device_id_from_name: despite its name, the same search by path. */
  method GetDeviceIdFromName(sd: SharedData, path: string) returns (id: int)
    requires TableValid(sd)
    ensures id == IdOf(IndexOfPath(sd.channelInfo[..], sd.channelsActive, path, 0))
  {
    var deviceId := 0;
    while deviceId < sd.channelsActive
      invariant 0 <= deviceId <= sd.channelsActive
      invariant forall k | 0 <= k < deviceId :: sd.channelInfo[k].devicePath != path
    {
      if sd.channelInfo[deviceId].devicePath == path {
        return deviceId;
      }
      deviceId := deviceId + 1;
    }
    return -1;
  }

  // ---------------------------------------------------------------------------
  // One pass of the monitor
  // ---------------------------------------------------------------------------

  /** A drive the scan accepted: its device name (/dev/sdX) and its port path. */
  datatype Device = Device(name: string, path: string)

  /** The table as the monitor's pass sees it: the records, the discovered-port count, and which slots were seen. */
  datatype Table = Table(records: seq<ChannelInfo>, active: nat, present: seq<bool>)

  ghost predicate Shaped(t: Table) {
    |t.records| == MAX_USB_CHANNELS && |t.present| == MAX_USB_CHANNELS && t.active <= MAX_USB_CHANNELS
  }

  /** The slot the pass writes for a drive's path, as written: a new path takes slot channels_active, whatever its value. */
  function NewSlotAsWritten(t: Table, path: string): (slot: int)
    requires Shaped(t)
    ensures 0 <= slot <= t.active
    ensures slot < t.active <==> exists k | 0 <= k < t.active :: t.records[k].devicePath == path
    ensures slot < t.active ==> t.records[slot].devicePath == path
  {
    var found := IndexOfPath(t.records, t.active, path, 0);
    if found.Some? then found.value else t.active
  }

  /** With all fourteen slots discovered, a drive on a fifteenth path is written to slot 14, past the last record. */
  lemma NewSlotAsWrittenOverflows(t: Table, path: string)
    requires Shaped(t) && t.active == MAX_USB_CHANNELS
    requires forall k | 0 <= k < |t.records| :: t.records[k].devicePath != path
    ensures NewSlotAsWritten(t, path) == |t.records| == |t.present|
  {
  }

  /**
   * A drive arriving in the pass, with the table's overflow corrected: a
   * path not yet discovered takes the next free slot (the drive is ignored
   * when none is left) with its name, its path and READY; a discovered
   * path whose drive changed name takes the new name and READY; either
   * way the slot is marked seen.
   */
  function Arrive(t: Table, d: Device): (r: Table)
    requires Shaped(t)
    ensures Shaped(r) && t.active <= r.active <= t.active + 1
    ensures IndexOfPath(t.records, t.active, d.path, 0).None? && t.active < MAX_USB_CHANNELS ==>
      r.active == t.active + 1 && r.present[t.active] &&
      r.records[t.active].deviceName == d.name && r.records[t.active].devicePath == d.path &&
      r.records[t.active].state == Ready &&
      forall k | 0 <= k < MAX_USB_CHANNELS && k != t.active :: r.records[k] == t.records[k] && r.present[k] == t.present[k]
    ensures IndexOfPath(t.records, t.active, d.path, 0).None? && t.active == MAX_USB_CHANNELS ==> r == t
    ensures IndexOfPath(t.records, t.active, d.path, 0).Some? ==>
      var k := IndexOfPath(t.records, t.active, d.path, 0).value;
      r.active == t.active && r.present[k] &&
      r.records[k].deviceName == d.name && r.records[k].devicePath == d.path &&
      (t.records[k].deviceName != d.name ==> r.records[k] == t.records[k].(deviceName := d.name, state := Ready)) &&
      (t.records[k].deviceName == d.name ==> r.records[k] == t.records[k]) &&
      forall j | 0 <= j < MAX_USB_CHANNELS && j != k :: r.records[j] == t.records[j] && r.present[j] == t.present[j]
  {
    match IndexOfPath(t.records, t.active, d.path, 0)
    case None =>
      if t.active == MAX_USB_CHANNELS then t
      else
        var rec := t.records[t.active].(deviceName := d.name, devicePath := d.path, state := Ready);
        Table(t.records[t.active := rec], t.active + 1, t.present[t.active := true])
    case Some(k) =>
      var rec := t.records[k];
      var rec' := if rec.deviceName != d.name then rec.(deviceName := d.name, state := Ready) else rec;
      Table(t.records[k := rec'], t.active, t.present[k := true])
  }

  /** The drives of one scan arriving in order. */
  function ArriveAll(t: Table, devices: seq<Device>): (r: Table)
    requires Shaped(t)
    ensures Shaped(r) && t.active <= r.active
    decreases |devices|
  {
    if devices == [] then t else ArriveAll(Arrive(t, devices[0]), devices[1..])
  }

  /** A slot whose drive is gone: the name is cleared, and the state is EMPTY unless the copy failed. */
  function Removed(rec: ChannelInfo): (r: ChannelInfo)
    ensures r.deviceName == "" && r.devicePath == rec.devicePath && r.halt == rec.halt
    ensures r.state == (if rec.state == Failed || rec.state == CrcFailed then rec.state else Empty)
  {
    rec.(state := if rec.state != Failed && rec.state != CrcFailed then Empty else rec.state, deviceName := "")
  }

  /** The end of the pass: every slot not seen that still has a name is removed. */
  function Sweep(records: seq<ChannelInfo>, present: seq<bool>): (r: seq<ChannelInfo>)
    requires |records| == |present|
    ensures |r| == |records|
  {
    seq(|records|, i requires 0 <= i < |records| => if !present[i] && records[i].deviceName != "" then Removed(records[i]) else records[i])
  }

  /** The whole pass over the drives of one scan, starting with no slot seen. */
  function Scan(records: seq<ChannelInfo>, active: nat, devices: seq<Device>): (r: Table)
    requires |records| == MAX_USB_CHANNELS && active <= MAX_USB_CHANNELS
    ensures Shaped(r)
  {
    var t := ArriveAll(Table(records, active, seq(MAX_USB_CHANNELS, _ => false)), devices);
    Table(Sweep(t.records, t.present), t.active, t.present)
  }

  /** The table a pass is working on: the shared records and the pass's own seen flags. */
  ghost function TableOf(sd: SharedData, present: array<bool>): Table
    reads sd, sd.channelInfo, present
    requires sd.channelsActive >= 0
  {
    Table(sd.channelInfo[..], sd.channelsActive, present[..])
  }

  /** One drive of the scan: looked up by path, then added, renamed or just marked seen. */
  method ArriveOne(sd: SharedData, present: array<bool>, d: Device)
    requires TableValid(sd) && present.Length == MAX_USB_CHANNELS
    modifies sd, sd.channelInfo, present
    ensures TableValid(sd)
    ensures TableOf(sd, present) == Arrive(old(TableOf(sd, present)), d)
    ensures sd.totalSize == old(sd.totalSize)
  {
    var deviceId := GetDeviceIdFromPath(sd, d.path);
    if deviceId < 0 {
      if sd.channelsActive < MAX_USB_CHANNELS {
        deviceId := sd.channelsActive;
        var rec := sd.channelInfo[deviceId];
        sd.channelInfo[deviceId] := rec.(deviceName := d.name, devicePath := d.path, state := Ready);
        present[deviceId] := true;
        sd.channelsActive := sd.channelsActive + 1;
      }
    } else {
      var rec := sd.channelInfo[deviceId];
      if rec.deviceName != d.name {
        sd.channelInfo[deviceId] := rec.(deviceName := d.name, state := Ready);
      }
      present[deviceId] := true;
    }
  }

  /** The end of the pass: every slot not seen that still has a name is removed. */
  method SweepPass(sd: SharedData, present: array<bool>)
    requires TableValid(sd) && present.Length == MAX_USB_CHANNELS
    modifies sd.channelInfo
    ensures sd.channelInfo[..] == Sweep(old(sd.channelInfo[..]), present[..])
  {
    var deviceId := 0;
    while deviceId < MAX_USB_CHANNELS
      invariant 0 <= deviceId <= MAX_USB_CHANNELS
      invariant forall i | 0 <= i < deviceId :: sd.channelInfo[i] == Sweep(old(sd.channelInfo[..]), present[..])[i]
      invariant forall i | deviceId <= i < MAX_USB_CHANNELS :: sd.channelInfo[i] == old(sd.channelInfo[i])
    {
      var rec := sd.channelInfo[deviceId];
      if !present[deviceId] && rec.deviceName != "" {
        var state := if rec.state != Failed && rec.state != CrcFailed then Empty else rec.state;
        sd.channelInfo[deviceId] := rec.(state := state, deviceName := "");
      }
      deviceId := deviceId + 1;
    }
  }

  /**
   * One pass of monitor_usb_drives_thread_function, with the overflow
   * corrected: every drive is looked up by path and recorded, then every
   * slot not seen loses its name.
   */
  method ScanStep(sd: SharedData, devices: seq<Device>)
    requires TableValid(sd)
    modifies sd, sd.channelInfo
    ensures TableValid(sd)
    ensures var r := Scan(old(sd.channelInfo[..]), old(sd.channelsActive), devices);
      sd.channelInfo[..] == r.records && sd.channelsActive == r.active
    ensures sd.totalSize == old(sd.totalSize)
  {
    var present := new bool[MAX_USB_CHANNELS](_ => false);
    ghost var t0 := TableOf(sd, present);
    assert present[..] == seq(MAX_USB_CHANNELS, _ => false);
    var n := 0;
    while n < |devices|
      invariant 0 <= n <= |devices|
      invariant TableValid(sd) && present.Length == MAX_USB_CHANNELS && fresh(present)
      invariant ArriveAll(t0, devices) == ArriveAll(TableOf(sd, present), devices[n..])
      invariant sd.totalSize == old(sd.totalSize)
    {
      ArriveOne(sd, present, devices[n]);
      assert devices[n..][1..] == devices[n + 1..];
      n := n + 1;
    }
    assert devices[n..] == [];
    SweepPass(sd, present);
  }

  // ---------------------------------------------------------------------------
  // What a pass guarantees
  // ---------------------------------------------------------------------------

  /** No two discovered slots hold the same path, and only discovered slots are seen. */
  ghost predicate Consistent(t: Table)
    requires Shaped(t)
  {
    (forall j, k | 0 <= j < k < t.active :: t.records[j].devicePath != t.records[k].devicePath) &&
    (forall k | t.active <= k < MAX_USB_CHANNELS :: !t.present[k])
  }

  /** A seen slot holds a name when every drive of the scan has one. */
  ghost predicate SeenNamed(t: Table)
    requires Shaped(t)
  {
    forall k | 0 <= k < MAX_USB_CHANNELS && t.present[k] :: t.records[k].deviceName != ""
  }

  /** Whether the drive's path is held by a seen slot of `t`. */
  ghost predicate Tracked(t: Table, path: string)
    requires Shaped(t)
  {
    exists k | 0 <= k < t.active :: t.present[k] && t.records[k].devicePath == path
  }

  /** One arrival keeps the paths of the discovered slots distinct, tracks the drive unless the table is full, and keeps what was tracked tracked. */
  lemma ArriveKeeps(t: Table, d: Device, path: string)
    requires Shaped(t) && Consistent(t)
    ensures var r := Arrive(t, d);
      Consistent(r) &&
      (d.name != "" && SeenNamed(t) ==> SeenNamed(r)) &&
      (Tracked(t, path) ==> Tracked(r, path)) &&
      (t.active < MAX_USB_CHANNELS || IndexOfPath(t.records, t.active, d.path, 0).Some? ==> Tracked(r, d.path))
  {
    var r := Arrive(t, d);
    var found := IndexOfPath(t.records, t.active, d.path, 0);
    if Tracked(t, path) {
      var k :| 0 <= k < t.active && t.present[k] && t.records[k].devicePath == path;
      assert r.present[k] && r.records[k].devicePath == path;
    }
    if found.Some? {
      assert r.present[found.value] && r.records[found.value].devicePath == d.path;
    } else if t.active < MAX_USB_CHANNELS {
      assert r.present[t.active] && r.records[t.active].devicePath == d.path;
    }
  }

  /**
   * After every drive of a scan with names has arrived, the discovered
   * paths are still distinct, every seen slot has a name, and every
   * drive is held by a seen slot unless it found the table full.
   */
  lemma {:induction false} ArriveAllKeeps(t: Table, devices: seq<Device>)
    requires Shaped(t) && Consistent(t) && SeenNamed(t)
    requires forall n | 0 <= n < |devices| :: devices[n].name != ""
    ensures var r := ArriveAll(t, devices);
      Consistent(r) && SeenNamed(r) &&
      (forall path | Tracked(t, path) :: Tracked(r, path)) &&
      (r.active < MAX_USB_CHANNELS ==> forall n | 0 <= n < |devices| :: Tracked(r, devices[n].path))
    decreases |devices|
  {
    if devices != [] {
      var t1 := Arrive(t, devices[0]);
      ArriveKeeps(t, devices[0], devices[0].path);
      forall path | Tracked(t, path)
        ensures Tracked(t1, path)
      {
        ArriveKeeps(t, devices[0], path);
      }
      ArriveAllKeeps(t1, devices[1..]);
      var r := ArriveAll(t1, devices[1..]);
      if r.active < MAX_USB_CHANNELS {
        assert t1.active < MAX_USB_CHANNELS;
        assert t.active < MAX_USB_CHANNELS;
        forall n | 0 <= n < |devices|
          ensures Tracked(r, devices[n].path)
        {
          if n > 0 {
            assert devices[n] == devices[1..][n - 1];
          }
        }
      }
    }
  }

  /** The sweep removes exactly the unseen named slots and leaves the seen ones alone. */
  lemma SweepEffect(records: seq<ChannelInfo>, present: seq<bool>, i: nat)
    requires |records| == |present| && i < |records|
    ensures var r := Sweep(records, present)[i];
      (present[i] ==> r == records[i]) &&
      (!present[i] && records[i].deviceName != "" ==>
        r.deviceName == "" && r.devicePath == records[i].devicePath &&
        r.state == (if records[i].state in {Failed, CrcFailed} then records[i].state else Empty)) &&
      (records[i].deviceName == "" ==> r == records[i])
  {
  }

  /**
   * A whole pass on a consistent table: the discovered count never
   * decreases and stays within the table, every slot seen keeps a name,
   * and every drive of the scan is held by a seen slot unless the table
   * was full.
   */
  lemma ScanGuarantees(records: seq<ChannelInfo>, active: nat, devices: seq<Device>)
    requires |records| == MAX_USB_CHANNELS && active <= MAX_USB_CHANNELS
    requires forall j, k | 0 <= j < k < active :: records[j].devicePath != records[k].devicePath
    requires forall n | 0 <= n < |devices| :: devices[n].name != ""
    ensures var r := Scan(records, active, devices);
      active <= r.active <= MAX_USB_CHANNELS &&
      (forall k | 0 <= k < MAX_USB_CHANNELS && r.present[k] :: r.records[k].deviceName != "" && k < r.active) &&
      (forall j, k | 0 <= j < k < r.active :: r.records[j].devicePath != r.records[k].devicePath) &&
      (r.active < MAX_USB_CHANNELS ==> forall n | 0 <= n < |devices| :: Tracked(r, devices[n].path))
  {
    var t0 := Table(records, active, seq(MAX_USB_CHANNELS, _ => false));
    ArriveAllKeeps(t0, devices);
    var t := ArriveAll(t0, devices);
    var r := Scan(records, active, devices);
    assert forall k | 0 <= k < MAX_USB_CHANNELS :: r.records[k].devicePath == t.records[k].devicePath;
    assert forall k | 0 <= k < MAX_USB_CHANNELS && t.present[k] :: r.records[k] == t.records[k];
    if r.active < MAX_USB_CHANNELS {
      forall n | 0 <= n < |devices|
        ensures Tracked(r, devices[n].path)
      {
        assert Tracked(t, devices[n].path);
        var k :| 0 <= k < t.active && t.present[k] && t.records[k].devicePath == devices[n].path;
        assert r.present[k] && r.records[k].devicePath == devices[n].path;
      }
    }
  }
}
