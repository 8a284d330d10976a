/**
 * Constants, enumerations and the per-channel record shared by every part of
 * the USB duplicator (globals.h).
 */
module Globals {

  /** Size of the file prefix that CRCs cover: CRC_SIZE = 1 MiB. */
  const CRC_SIZE: nat := 1024 * 1024
  /** Maximum number of entries per directory level (MAX_FILES). */
  const MAX_FILES: nat := 1024
  /** Size of the copy buffer (COPY_BUFFER_SIZE). */
  const COPY_BUFFER_SIZE: nat := 65536
  /** General name string capacity (STRING_LEN). */
  const STRING_LEN: nat := 256
  /** Path buffer capacity (PATH_LEN). */
  const PATH_LEN: nat := 512

  const NUMBER_OF_HUBS: nat := 2
  const PORTS_PER_CHANNEL: nat := 7
  const MAX_USB_CHANNELS: nat := NUMBER_OF_HUBS * PORTS_PER_CHANNEL

  /** One mebibyte, the unit of the partition geometry. */
  const MIB: nat := 1024 * 1024

  /** The RAM drive directory that holds the master copy (RAMDIR_PATH). */
  const RAMDIR_PATH: string := "/var/ramdrive/master"
  /** Parent of every worker's mount point (MOUNT_POINT). */
  const MOUNT_POINT: string := "/mnt/usb"

  /** Compile-time switch that enables the verification stage (VERIFY). */
  const VERIFY: bool := true

  /**
   * Lifecycle state of one channel (ChannelStateEnum). Unused and NotInUse are
   * referred to by the server but not declared in the enumeration's header;
   * they are added here as two further states.
   */
  datatype ChannelState =
    | Empty | Ready | Starting | Erasing | Formating | Partitioning | Mounting
    | Copying | Unmounting | Verifying | Success | Failed | CrcFailed
    | LedTest | Indicating | Unused | NotInUse

  /** The seven states of a worker that is still duplicating. */
  predicate InProgress(s: ChannelState) {
    s in {Starting, Erasing, Formating, Partitioning, Mounting, Copying, Unmounting}
  }

  /** A pending push-button event (ButtonStateEnum). */
  datatype ButtonState = NotPressed | ShortPress | LongPress

  /**
   * One slot of the shared control plane (ChannelInfoStruct). Strings hold the
   * characters before the C terminator; the byte counter is unbounded.
   */
  datatype ChannelInfo = ChannelInfo(
    deviceId: int,
    hubNumber: int,
    portNumber: int,
    halt: bool,
    state: ChannelState,
    pid: int,
    startTime: int,
    deviceName: string,
    devicePath: string,
    bytesCopied: int)

  /**
   * The record memset leaves behind. Its numeric state 0 is no declared
   * state; the model reads it as Unused.
   */
  const ZeroRecord: ChannelInfo := ChannelInfo(0, 0, 0, false, Unused, 0, 0, "", "", 0)

  datatype Option<T> = None | Some(value: T)
}
