/**
 * The supervisor (server.c): it lays out the shared segment, starts one
 * worker per ready drive of a hub, cancels a hub's workers, and once per
 * poll per hub counts the hub's records and moves the hub between idle and
 * busy on the hub's button.
 *
 * A worker is started by fork and exec. The model replaces fork by its
 * result, `forkPid` (negative when fork fails, otherwise what the parent
 * sees), and applies the writes the child makes to its record before it
 * executes the worker as if they happened at once. The clock is a
 * parameter `now`. The text sent to the display is replaced by what it
 * reports (`Shown`).
 */
module Server {
  import opened Globals
  import opened ControlPlane

  // ---------------------------------------------------------------------------
  // Start-up layout and state writes
  // ---------------------------------------------------------------------------

  /**
   * The supervisor's start-up: a zeroed segment, then every slot numbered,
   * placed on hub id / 7 and port id % 7, and marked unused.
   */
  method InitialiseSharedData() returns (sd: SharedData)
    ensures fresh(sd) && fresh(sd.channelInfo) && sd.Valid()
    ensures sd.totalSize == 0 && sd.channelsActive == 0
    ensures forall i | 0 <= i < MAX_USB_CHANNELS :: sd.channelInfo[i] == InitialRecord(i)
  {
    sd := new SharedData();
    var id := 0;
    while id < MAX_USB_CHANNELS
      invariant 0 <= id <= MAX_USB_CHANNELS
      invariant sd.totalSize == 0 && sd.channelsActive == 0
      invariant forall i | 0 <= i < id :: sd.channelInfo[i] == InitialRecord(i)
      invariant forall i | id <= i < MAX_USB_CHANNELS :: sd.channelInfo[i] == ZeroRecord
    {
      var rec := sd.channelInfo[id];
      sd.channelInfo[id] := rec.(deviceId := id, hubNumber := id / PORTS_PER_CHANNEL,
                                 portNumber := id % PORTS_PER_CHANNEL, state := Unused);
      id := id + 1;
    }
  }

  /** After start-up each hub holds exactly the seven slots 7 * hub .. 7 * hub + 6. */
  lemma InitialHubs(records: seq<ChannelInfo>, i: nat, hub: int)
    requires |records| == MAX_USB_CHANNELS
    requires forall k | 0 <= k < |records| :: records[k] == InitialRecord(k)
    requires i < |records|
    ensures records[i].hubNumber == hub <==> hub * PORTS_PER_CHANNEL <= i < hub * PORTS_PER_CHANNEL + PORTS_PER_CHANNEL
  {
    var r := records[i];
    assert r == InitialRecord(i);
    assert i == r.hubNumber * PORTS_PER_CHANNEL + r.portNumber;
  }

  /** set_state: one record's state. */
  method SetState(sd: SharedData, deviceId: int, state: ChannelState)
    requires sd.Valid() && 0 <= deviceId < MAX_USB_CHANNELS
    modifies sd.channelInfo
    ensures sd.channelInfo[..] == old(sd.channelInfo[..])[deviceId := old(sd.channelInfo[deviceId]).(state := state)]
  {
    sd.channelInfo[deviceId] := sd.channelInfo[deviceId].(state := state);
  }

  /** Two records that agree on everything but their state. */
  predicate SameButState(a: ChannelInfo, b: ChannelInfo) {
    a.(state := b.state) == b
  }

  /** set_all_states: every record's state becomes `state`, and nothing else changes. */
  method SetAllStates(sd: SharedData, state: ChannelState)
    requires sd.Valid()
    modifies sd.channelInfo
    ensures forall i | 0 <= i < MAX_USB_CHANNELS ::
      sd.channelInfo[i].state == state && SameButState(old(sd.channelInfo[i]), sd.channelInfo[i])
  {
    var id := 0;
    while id < MAX_USB_CHANNELS
      invariant 0 <= id <= MAX_USB_CHANNELS
      invariant forall i | 0 <= i < id :: sd.channelInfo[i] == old(sd.channelInfo[i]).(state := state)
      invariant forall i | id <= i < MAX_USB_CHANNELS :: sd.channelInfo[i] == old(sd.channelInfo[i])
    {
      sd.channelInfo[id] := sd.channelInfo[id].(state := state);
      id := id + 1;
    }
  }

  // ---------------------------------------------------------------------------
  // start_process
  // ---------------------------------------------------------------------------

  /** The range check start_process makes, as written: it rejects ids below 0 or above MAX_USB_CHANNELS. */
  predicate StartGuardAsWritten(deviceId: int) {
    !(deviceId < 0 || deviceId > MAX_USB_CHANNELS)
  }

  /** The range check the fourteen-slot array calls for. */
  predicate StartGuard(deviceId: int) {
    0 <= deviceId < MAX_USB_CHANNELS
  }

  /** The check as written lets exactly one id more through, MAX_USB_CHANNELS, which is past the last slot. */
  lemma StartGuardAsWrittenAdmitsEnd(sd: SharedData, deviceId: int)
    requires sd.Valid()
    ensures StartGuardAsWritten(deviceId) <==> StartGuard(deviceId) || deviceId == MAX_USB_CHANNELS
    ensures StartGuardAsWritten(MAX_USB_CHANNELS) && MAX_USB_CHANNELS == sd.channelInfo.Length
  {
  }

  /** What start_process returns, or the status it ends the supervisor with. */
  datatype StartResult = Exit(status: int) | Pid(pid: int)

  /** The child's writes to its record before it executes the worker: its pid as it sees it, STARTING, the start time and a zero count. */
  function Started(rec: ChannelInfo, now: int): (r: ChannelInfo)
    ensures r.state == Starting && r.bytesCopied == 0 && r.startTime == now
    ensures r.deviceName == rec.deviceName && r.devicePath == rec.devicePath && r.halt == rec.halt
    ensures r.hubNumber == rec.hubNumber && r.deviceId == rec.deviceId
  {
    rec.(pid := 0, state := Starting, startTime := now, bytesCopied := 0)
  }

  /** Whether start_process launches a worker for a record in range: not unused, and fork succeeds. */
  predicate Launches(rec: ChannelInfo, forkPid: int) {
    rec.state != Unused && forkPid >= 0
  }

  /**
   * start_process with the range check corrected: an id out of range ends
   * the supervisor with status 1; an unused record, or a failed fork,
   * returns -1 and changes nothing; otherwise the parent returns the pid
   * and the record is the child's.
   */
  method StartProcess(sd: SharedData, deviceId: int, forkPid: int, now: int) returns (r: StartResult)
    requires sd.Valid()
    modifies sd.channelInfo
    ensures !StartGuard(deviceId) ==> r == Exit(1) && sd.channelInfo[..] == old(sd.channelInfo[..])
    ensures StartGuard(deviceId) ==>
      var rec := old(sd.channelInfo[deviceId]);
      r == Pid(if Launches(rec, forkPid) then forkPid else -1) &&
      sd.channelInfo[..] == old(sd.channelInfo[..])[deviceId := if Launches(rec, forkPid) then Started(rec, now) else rec]
  {
    if !StartGuard(deviceId) {
      return Exit(1);
    }
    var rec := sd.channelInfo[deviceId];
    if rec.state == Unused {
      return Pid(-1);
    }
    if forkPid < 0 {
      return Pid(-1);
    }
    sd.channelInfo[deviceId] := Started(rec, now);
    return Pid(forkPid);
  }

  // ---------------------------------------------------------------------------
  // run and terminate
  // ---------------------------------------------------------------------------

  /** The states from which a run starts a worker: READY, SUCCESS and FAILED (not CRC_FAILED). */
  predicate Startable(s: ChannelState) {
    s == Ready || s == Success || s == Failed
  }

  /** The ids from `i` on of hub `hub`'s startable records, in increasing order. */
  function Candidates(records: seq<ChannelInfo>, hub: int, i: nat): seq<nat>
    requires i <= |records|
    decreases |records| - i
  {
    if i == |records| then []
    else if records[i].hubNumber == hub && Startable(records[i].state) then [i] + Candidates(records, hub, i + 1)
    else Candidates(records, hub, i + 1)
  }

  /**
   * The ids a run starts from `i` on are exactly the hub's startable
   * records at or after `i`, each once, in increasing order.
   */
  lemma {:induction false} CandidatesExactly(records: seq<ChannelInfo>, hub: int, i: nat)
    requires i <= |records|
    ensures var ids := Candidates(records, hub, i);
      (forall k | 0 <= k < |ids| :: i <= ids[k] < |records|) &&
      (forall k, l | 0 <= k < l < |ids| :: ids[k] < ids[l]) &&
      (forall k :: k in ids <==> i <= k < |records| && records[k].hubNumber == hub && Startable(records[k].state))
    decreases |records| - i
  {
    if i < |records| {
      CandidatesExactly(records, hub, i + 1);
    }
  }

  /** The records after a run of hub `hub` whose forks return `forks(id)`. */
  function AfterRun(records: seq<ChannelInfo>, hub: int, forks: int -> int, now: int): (r: seq<ChannelInfo>)
    ensures |r| == |records|
  {
    seq(|records|, i requires 0 <= i < |records| => AfterOne(records[i], hub, forks(i), now))
  }

  /** One record after a run of hub `hub`: started when it is a candidate and its fork succeeds, otherwise as it was. */
  function AfterOne(rec: ChannelInfo, hub: int, forkPid: int, now: int): ChannelInfo {
    if rec.hubNumber == hub && Startable(rec.state) && forkPid >= 0 then Started(rec, now) else rec
  }

  /** What run returns: 1 when some start failed. */
  function RunResult(calls: seq<nat>, forks: int -> int): (r: int)
    ensures r == 0 || r == 1
    ensures r == 0 <==> forall k | k in calls :: forks(k) >= 0
  {
    if exists k :: k in calls && forks(k) < 0 then 1 else 0
  }

  /**
   * run: start_process for exactly the startable records of the hub, in
   * increasing id; `calls` lists the ids it was called with.
   */
  method Run(sd: SharedData, hub: int, forks: int -> int, now: int) returns (result: int, calls: seq<nat>)
    requires sd.Valid()
    modifies sd.channelInfo
    ensures calls == Candidates(old(sd.channelInfo[..]), hub, 0)
    ensures result == RunResult(calls, forks)
    ensures sd.channelInfo[..] == AfterRun(old(sd.channelInfo[..]), hub, forks, now)
  {
    ghost var records := sd.channelInfo[..];
    ghost var after := AfterRun(records, hub, forks, now);
    result := 0;
    calls := [];
    var id: nat := 0;
    while id < MAX_USB_CHANNELS
      invariant 0 <= id <= MAX_USB_CHANNELS
      invariant Candidates(records, hub, 0) == calls + Candidates(records, hub, id)
      invariant result == RunResult(calls, forks)
      invariant forall i | 0 <= i < id :: sd.channelInfo[i] == after[i]
      invariant forall i | id <= i < MAX_USB_CHANNELS :: sd.channelInfo[i] == records[i]
    {
      var candidate, failed := StartOne(sd, hub, id, forks(id), now);
      if candidate {
        assert Candidates(records, hub, id) == [id] + Candidates(records, hub, id + 1);
        AppendOne<nat>(calls, id, Candidates(records, hub, id + 1));
        RunResultAppend(calls, id, forks);
        calls := calls + [id];
        if failed {
          result := 1;
        }
      } else {
        assert Candidates(records, hub, id) == Candidates(records, hub, id + 1);
      }
      id := id + 1;
    }
  }

  /** One iteration of run's loop: start_process for record `id` when it is a candidate of the hub. */
  method StartOne(sd: SharedData, hub: int, id: nat, forkPid: int, now: int) returns (candidate: bool, failed: bool)
    requires sd.Valid() && id < MAX_USB_CHANNELS
    modifies sd.channelInfo
    ensures candidate == (old(sd.channelInfo[id]).hubNumber == hub && Startable(old(sd.channelInfo[id]).state))
    ensures failed == (candidate && forkPid < 0)
    ensures sd.channelInfo[id] == AfterOne(old(sd.channelInfo[id]), hub, forkPid, now)
    ensures forall i | 0 <= i < MAX_USB_CHANNELS && i != id :: sd.channelInfo[i] == old(sd.channelInfo[i])
  {
    var rec := sd.channelInfo[id];
    candidate := rec.hubNumber == hub && Startable(rec.state);
    failed := false;
    if candidate {
      var r := StartProcess(sd, id, forkPid, now);
      failed := r.pid < 0;
    }
  }

  lemma RunResultAppend(calls: seq<nat>, id: nat, forks: int -> int)
    ensures RunResult(calls + [id], forks) == if forks(id) < 0 then 1 else RunResult(calls, forks)
  {
    if forks(id) < 0 {
      assert id in calls + [id];
    } else {
      forall k | k in calls + [id] && forks(k) < 0
        ensures k in calls
      {
      }
    }
  }

  lemma AppendOne<T>(a: seq<T>, x: T, rest: seq<T>)
    ensures a + ([x] + rest) == (a + [x]) + rest
  {
  }

  /** The records after terminate(hub): halt set on the hub's records. */
  function HaltHub(records: seq<ChannelInfo>, hub: int): (r: seq<ChannelInfo>)
    ensures |r| == |records|
  {
    seq(|records|, i requires 0 <= i < |records| => if records[i].hubNumber == hub then records[i].(halt := true) else records[i])
  }

  /** terminate: set halt on exactly the records of the hub. */
  method Terminate(sd: SharedData, hub: int)
    requires sd.Valid()
    modifies sd.channelInfo
    ensures sd.channelInfo[..] == HaltHub(old(sd.channelInfo[..]), hub)
  {
    ghost var records := sd.channelInfo[..];
    var id := 0;
    while id < MAX_USB_CHANNELS
      invariant 0 <= id <= MAX_USB_CHANNELS
      invariant forall i | 0 <= i < id :: sd.channelInfo[i] == HaltHub(records, hub)[i]
      invariant forall i | id <= i < MAX_USB_CHANNELS :: sd.channelInfo[i] == records[i]
    {
      if sd.channelInfo[id].hubNumber == hub {
        sd.channelInfo[id] := sd.channelInfo[id].(halt := true);
      }
      id := id + 1;
    }
  }

  /** terminate halts every record of the hub, and changes no state and no record of another hub. */
  lemma HaltHubEffect(records: seq<ChannelInfo>, hub: int)
    ensures forall i | 0 <= i < |records| :: HaltHub(records, hub)[i].state == records[i].state
    ensures forall i | 0 <= i < |records| && records[i].hubNumber == hub :: HaltHub(records, hub)[i].halt
    ensures forall i | 0 <= i < |records| && records[i].hubNumber != hub :: HaltHub(records, hub)[i] == records[i]
    ensures forall i | 0 <= i < |records| :: HaltHub(records, hub)[i] == records[i].(halt := HaltHub(records, hub)[i].halt)
  {
  }

  /** A run starts a worker only on its hub's startable records, and leaves every other record alone. */
  lemma AfterRunEffect(records: seq<ChannelInfo>, hub: int, forks: int -> int, now: int, i: nat)
    requires i < |records|
    ensures var r := AfterRun(records, hub, forks, now)[i];
      (i in Candidates(records, hub, 0) && forks(i) >= 0 ==> r.state == Starting && r.bytesCopied == 0) &&
      (i !in Candidates(records, hub, 0) ==> r == records[i]) &&
      (records[i].state == CrcFailed ==> r == records[i])
  {
    CandidatesExactly(records, hub, 0);
    assert AfterRun(records, hub, forks, now)[i] == AfterOne(records[i], hub, forks(i), now);
  }

  // ---------------------------------------------------------------------------
  // Aggregation (the counting loop of hub_main)
  // ---------------------------------------------------------------------------

  /** The counts of one hub: busy and passed workers, failed ones, and the bytes of the busy and passed. */
  datatype Counts = Counts(busy: nat, pass: nat, fail: nat, bytes: int)

  /** One record's contribution to its hub's counts. */
  function Count(c: Counts, rec: ChannelInfo, hub: int): (r: Counts)
    ensures rec.hubNumber != hub ==> r == c
    ensures c.busy <= r.busy && c.pass <= r.pass && c.fail <= r.fail
    ensures r.busy + r.pass + r.fail <= c.busy + c.pass + c.fail + 1
  {
    if rec.hubNumber != hub then c
    else if InProgress(rec.state) then c.(busy := c.busy + 1, bytes := c.bytes + rec.bytesCopied)
    else if rec.state == Success then c.(pass := c.pass + 1, bytes := c.bytes + rec.bytesCopied)
    else if rec.state == Failed then c.(fail := c.fail + 1)
    else c
  }

  /** The counts of hub `hub` over `records`. */
  function CountsOf(records: seq<ChannelInfo>, hub: int): (c: Counts)
    ensures c.busy + c.pass + c.fail <= |records|
  {
    if records == [] then Counts(0, 0, 0, 0)
    else Count(CountsOf(records[..|records| - 1], hub), records[|records| - 1], hub)
  }

  /** The counting loop of hub_main. */
  method Aggregate(sd: SharedData, hub: int) returns (c: Counts)
    requires sd.Valid()
    ensures c == CountsOf(sd.channelInfo[..], hub)
  {
    c := Counts(0, 0, 0, 0);
    var i := 0;
    while i < MAX_USB_CHANNELS
      invariant 0 <= i <= MAX_USB_CHANNELS
      invariant c == CountsOf(sd.channelInfo[..i], hub)
    {
      assert sd.channelInfo[..i + 1][..i] == sd.channelInfo[..i];
      c := Count(c, sd.channelInfo[i], hub);
      i := i + 1;
    }
    assert sd.channelInfo[..i] == sd.channelInfo[..];
  }

  /** No record of the hub is busy exactly when the busy count is zero. */
  lemma {:induction false} BusyZeroIff(records: seq<ChannelInfo>, hub: int)
    ensures CountsOf(records, hub).busy == 0 <==>
      forall i | 0 <= i < |records| :: records[i].hubNumber == hub ==> !InProgress(records[i].state)
  {
    if records != [] {
      var front := records[..|records| - 1];
      BusyZeroIff(front, hub);
      assert forall i | 0 <= i < |front| :: front[i] == records[i];
    }
  }

  /** Each count is bounded by the records counted: busy + pass + fail records of the hub at most. */
  lemma {:induction false} CountsBounded(records: seq<ChannelInfo>, hub: int)
    ensures var c := CountsOf(records, hub); c.busy + c.pass + c.fail <= |records|
    ensures (forall i | 0 <= i < |records| :: records[i].bytesCopied >= 0) ==> CountsOf(records, hub).bytes >= 0
  {
    if records != [] {
      var front := records[..|records| - 1];
      CountsBounded(front, hub);
      assert forall i | 0 <= i < |front| :: front[i] == records[i];
    }
  }

  /** The counts read only each record's hub, state and byte count: a halt flag or any other field does not change them. */
  lemma {:induction false} CountsReadStateAndBytes(a: seq<ChannelInfo>, b: seq<ChannelInfo>, hub: int)
    requires |a| == |b|
    requires forall i | 0 <= i < |a| ::
      a[i].hubNumber == b[i].hubNumber && a[i].state == b[i].state && a[i].bytesCopied == b[i].bytesCopied
    ensures CountsOf(a, hub) == CountsOf(b, hub)
  {
    if a != [] {
      CountsReadStateAndBytes(a[..|a| - 1], b[..|b| - 1], hub);
    }
  }

  /** Cancelling a hub does not change anyone's counts. */
  lemma TerminateKeepsCounts(records: seq<ChannelInfo>, hub: int, other: int)
    ensures CountsOf(HaltHub(records, hub), other) == CountsOf(records, other)
  {
    CountsReadStateAndBytes(HaltHub(records, hub), records, other);
  }

  /** Truncating division, as C divides integers. */
  function CDiv(a: int, b: int): (q: int)
    requires b != 0
    ensures a >= 0 && b > 0 ==> q == a / b
  {
    var m := (if a < 0 then -a else a) / (if b < 0 then -b else b);
    if (a < 0) != (b < 0) then -m else m
  }

  /**
   * The integer progress figure of hub_main: 0 with nothing counted or an
   * empty master, otherwise 100 * bytes / total_size / count.
   */
  function Percent(bytes: int, totalSize: int, count: int): (p: int)
    ensures count == 0 || totalSize == 0 ==> p == 0
  {
    if count == 0 || totalSize == 0 then 0 else CDiv(CDiv(100 * bytes, totalSize), count)
  }

  /** a <= b * c with c > 0 gives a / c <= b. */
  lemma DivAtMost(a: nat, b: nat, c: nat)
    requires c > 0 && a <= b * c
    ensures a / c <= b
  {
  }

  /** When no counted record has copied more than the master's size, the progress figure lies in 0..100. */
  lemma PercentBounded(bytes: nat, totalSize: nat, count: nat)
    requires totalSize > 0 && count > 0 && bytes <= totalSize * count
    ensures 0 <= Percent(bytes, totalSize, count) <= 100
  {
    var a := 100 * bytes;
    assert a <= (100 * count) * totalSize;
    DivAtMost(a, 100 * count, totalSize);
    DivAtMost(a / totalSize, 100, count);
  }

  // ---------------------------------------------------------------------------
  // hub_main
  // ---------------------------------------------------------------------------

  /** What one call of hub_main reports on the hub's two display lines. */
  datatype Shown =
    | Nothing
    | Cancelled
    | Progress(busy: nat, pass: nat, fail: nat, percent: int)
    | Done(pass: nat, fail: nat, mib: int, seconds: int)
    | Cleared

  /**
   * The busy flag after one call: an idle hub becomes busy on a short
   * press; a busy hub becomes idle on a long press or once none of its
   * records is busy.
   */
  function NextBusy(busy: bool, button: ButtonState, active: nat): (b: bool)
    ensures !busy ==> (b <==> button == ShortPress)
    ensures busy && button == LongPress ==> !b
    ensures busy && button != LongPress ==> (b <==> active > 0)
  {
    if busy then button != LongPress && active > 0 else button == ShortPress
  }

  /** The supervisor's per-hub memory (the statics of hub_main). */
  class Supervisor {
    const sd: SharedData
    /** Whether each hub is copying (channel_busy). */
    var channelBusy: seq<bool>
    /** When each hub's copy started, in seconds (start_time). */
    var startTime: seq<int>

    ghost predicate Valid()
      reads this, sd
    {
      sd.Valid() && |channelBusy| == NUMBER_OF_HUBS && |startTime| == NUMBER_OF_HUBS
    }

    constructor (sd: SharedData)
      requires sd.Valid()
      ensures Valid() && this.sd == sd
      ensures channelBusy == [false, false] && startTime == [0, 0]
    {
      this.sd := sd;
      channelBusy := [false, false];
      startTime := [0, 0];
    }

    /**
     * hub_main for one hub and its pending button event: count the hub,
     * then cancel on a long press while busy, report progress or the
     * summary while busy, or start a run on a short press while idle.
     */
    method HubMain(hub: int, button: ButtonState, now: int, forks: int -> int) returns (shown: Shown)
      requires Valid() && 0 <= hub < NUMBER_OF_HUBS
      modifies this, sd.channelInfo
      ensures Valid()
      ensures var c := CountsOf(old(sd.channelInfo[..]), hub);
        channelBusy == old(channelBusy)[hub := NextBusy(old(channelBusy[hub]), button, c.busy)]
      ensures old(channelBusy[hub]) && button == LongPress ==>
        shown == Cancelled && sd.channelInfo[..] == HaltHub(old(sd.channelInfo[..]), hub) && startTime == old(startTime)
      ensures old(channelBusy[hub]) && button != LongPress ==>
        var c := CountsOf(old(sd.channelInfo[..]), hub);
        sd.channelInfo[..] == old(sd.channelInfo[..]) && startTime == old(startTime) &&
        shown == (if c.busy > 0 then Progress(c.busy, c.pass, c.fail, Percent(c.bytes, sd.totalSize, c.busy + c.pass))
                  else Done(c.pass, c.fail, CDiv(CDiv(c.bytes, 1024), 1024), now - old(startTime[hub])))
      ensures !old(channelBusy[hub]) && button == ShortPress ==>
        shown == Cleared && startTime == old(startTime)[hub := now] &&
        sd.channelInfo[..] == AfterRun(old(sd.channelInfo[..]), hub, forks, now)
      ensures !old(channelBusy[hub]) && button != ShortPress ==>
        shown == Nothing && sd.channelInfo[..] == old(sd.channelInfo[..]) && startTime == old(startTime)
    {
      var c := Aggregate(sd, hub);
      shown := Nothing;
      if channelBusy[hub] {
        if button == LongPress {
          Terminate(sd, hub);
          shown := Cancelled;
          channelBusy := channelBusy[hub := false];
        } else if c.busy > 0 {
          shown := Progress(c.busy, c.pass, c.fail, Percent(c.bytes, sd.totalSize, c.busy + c.pass));
        } else {
          shown := Done(c.pass, c.fail, CDiv(CDiv(c.bytes, 1024), 1024), now - startTime[hub]);
          channelBusy := channelBusy[hub := false];
        }
      } else if button == ShortPress {
        startTime := startTime[hub := now];
        channelBusy := channelBusy[hub := true];
        shown := Cleared;
        var _, _ := Run(sd, hub, forks, now);
      }
    }
  }
}
