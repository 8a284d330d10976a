/**
 * The shared-memory segment that the supervisor, the workers and the
 * monitoring threads all read and write (SharedDataStruct in globals.h).
 *
 * The segment is one object: fourteen channel records in a fixed-size array,
 * the size of the master copy, and the count of USB ports discovered so far.
 * The settings block is not modelled.
 */
module ControlPlane {
  import opened Globals

  class SharedData {
    /** Size in bytes of the master copy on the RAM drive (total_size). */
    var totalSize: int
    /** Number of ports the hot-plug monitor has discovered (channels_active). */
    var channelsActive: int
    /** One record per USB channel (channel_info). */
    const channelInfo: array<ChannelInfo>

    ghost predicate Valid()
      reads this
    {
      channelInfo.Length == MAX_USB_CHANNELS
    }

    /** A freshly mapped segment after the supervisor's memset: every byte zero. */
    constructor ()
      ensures Valid()
      ensures fresh(channelInfo)
      ensures totalSize == 0 && channelsActive == 0
      ensures forall i | 0 <= i < channelInfo.Length :: channelInfo[i] == ZeroRecord
    {
      totalSize := 0;
      channelsActive := 0;
      channelInfo := new ChannelInfo[MAX_USB_CHANNELS](_ => ZeroRecord);
    }
  }

  /** The record the supervisor's start-up loop leaves in slot `i`. */
  function InitialRecord(i: nat): (r: ChannelInfo)
    ensures r.deviceId == i && r.state == Unused && !r.halt
    ensures r.hubNumber * PORTS_PER_CHANNEL + r.portNumber == i
    ensures 0 <= r.portNumber < PORTS_PER_CHANNEL
  {
    ZeroRecord.(deviceId := i, hubNumber := i / PORTS_PER_CHANNEL, portNumber := i % PORTS_PER_CHANNEL, state := Unused)
  }

  /** The lowest slot whose hub and port numbers are `hub` and `port`. */
  function IndexOfHubPort(records: seq<ChannelInfo>, hub: int, port: int): (r: Option<nat>)
    ensures r.Some? ==> r.value < |records| && records[r.value].hubNumber == hub && records[r.value].portNumber == port
    ensures r.Some? ==> forall k | 0 <= k < r.value :: !(records[k].hubNumber == hub && records[k].portNumber == port)
    ensures r.None? ==> forall k | 0 <= k < |records| :: !(records[k].hubNumber == hub && records[k].portNumber == port)
  {
    if records == [] then None
    else if records[0].hubNumber == hub && records[0].portNumber == port then Some(0)
    else match IndexOfHubPort(records[1..], hub, port)
      case None => None
      case Some(k) => Some(k + 1)
  }

  /** After start-up, slot `hub * 7 + port` is the one found for any hub below 2 and port below 7. */
  lemma InitialLayoutLookup(records: seq<ChannelInfo>, hub: nat, port: nat)
    requires |records| == MAX_USB_CHANNELS
    requires forall i | 0 <= i < |records| :: records[i] == InitialRecord(i)
    requires hub < NUMBER_OF_HUBS && port < PORTS_PER_CHANNEL
    ensures IndexOfHubPort(records, hub, port) == Some(hub * PORTS_PER_CHANNEL + port)
  {
    var target := hub * PORTS_PER_CHANNEL + port;
    assert records[target].hubNumber == hub && records[target].portNumber == port;
    var r := IndexOfHubPort(records, hub, port);
    if r.Some? {
      var k := r.value;
      assert records[k] == InitialRecord(k);
      assert k == records[k].hubNumber * PORTS_PER_CHANNEL + records[k].portNumber;
    }
  }
}
