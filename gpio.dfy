/**
 * The front panel thread (gpio.c): per channel three LEDs driven through
 * two chains of shift registers, and two push buttons, one per hub, whose
 * presses are classified as short or long.
 *
 * The clock reading `milliseconds` (a uint64) and the button line levels
 * are parameters of each tick. The shift-out of the bit frame, the
 * speaker, the system menu and the polling inside
 * wait_for_button_release are not part of this model.
 */
module Gpio {
  import opened Globals
  import opened ControlPlane

  const TWO_64: int := 0x1_0000_0000_0000_0000
  const TWO_63: int := 0x8000_0000_0000_0000

  /** A uint64 value. */
  type U64 = x: int | 0 <= x < TWO_64

  /** Conversion to uint64: arithmetic modulo 2^64. */
  function Wrap(x: int): (r: U64)
    ensures r % TWO_64 == x % TWO_64
  {
    x % TWO_64
  }

  /** Conversion of a uint64 to a 64-bit signed `long`. */
  function ToLong(x: U64): (r: int)
    ensures -TWO_63 <= r < TWO_63 && Wrap(r) == x
  {
    if x < TWO_63 then x else x - TWO_64
  }

  /**
   * How long a button must be held for a long press, and how long at least
   * a short press lasts, in milliseconds. The program refers to these two
   * names without defining them; the values here are a choice.
   */
  const LONG_PRESS_TIME: int := 2000
  const SHORT_PRESS_TIME: int := 50

  // ---------------------------------------------------------------------------
  // State to LEDs
  // ---------------------------------------------------------------------------

  datatype Leds = Leds(red: bool, yellow: bool, green: bool)

  datatype Colour = Red | Yellow | Green

  function Shade(l: Leds, c: Colour): bool {
    match c
    case Red => l.red
    case Yellow => l.yellow
    case Green => l.green
  }

  /** Whether a yellow LED blinking with `period` and port stagger `lag` is off at `ms`. */
  function BlinkOff(ms: U64, port: int, lag: int, period: int): bool
    requires period > 0
  {
    Wrap(ms - port * lag) % period < period / 2
  }

  /** set_leds: the three LEDs of port `port` in `state` at time `ms`. */
  function SetLeds(port: int, state: ChannelState, ms: U64): (r: Leds)
    ensures state in {Empty, Unused, NotInUse} ==> r == Leds(false, false, false)
    ensures state == Ready ==> r == Leds(false, true, false)
    ensures state == Success ==> r == Leds(false, false, true)
    ensures state == Failed ==> r == Leds(true, false, false)
    ensures state == CrcFailed ==> r == Leds(true, true, false)
    ensures state == LedTest ==> r == Leds(true, true, true)
    ensures InProgress(state) || state == Verifying ==> !r.red && !r.green
    ensures state == Indicating ==> (r.red || r.yellow || r.green <==> ms / 80 % 4 != 3)
  {
    match state
    case Ready => Leds(false, true, false)
    case Starting | Erasing | Partitioning | Mounting | Formating | Copying | Unmounting =>
      Leds(false, !BlinkOff(ms, port, 70, 600), false)
    case Verifying => Leds(false, !BlinkOff(ms, port, 20, 200), false)
    case Success => Leds(false, false, true)
    case Failed => Leds(true, false, false)
    case CrcFailed => Leds(true, true, false)
    case LedTest => Leds(true, true, true)
    case Indicating =>
      var phase := ms / 80 % 4;
      Leds(phase == 0, phase == 1, phase == 2)
    case _ => Leds(false, false, false)
  }

  /**
   * A busy port's yellow LED is a square wave: 300 ms off, 300 ms on.
   * Half a period later it shows the opposite, a full period later the same.
   */
  lemma BusyBlinks(port: int, state: ChannelState, ms: U64)
    requires InProgress(state) && 0 <= port * 70 <= ms && ms + 600 < TWO_64
    ensures SetLeds(port, state, ms + 300).yellow == !SetLeds(port, state, ms).yellow
    ensures SetLeds(port, state, ms + 600) == SetLeds(port, state, ms)
  {
    assert SetLeds(port, state, ms + 300).yellow == !SetLeds(port, state, ms).yellow by {
      BusyPeriod(ms - port * 70);
      BusyLeds(port, state, ms);
      BusyLeds(port, state, ms + 300);
    }
    assert SetLeds(port, state, ms + 600) == SetLeds(port, state, ms) by {
      BusyPeriod(ms - port * 70);
      BusyLeds(port, state, ms);
      BusyLeds(port, state, ms + 600);
    }
  }

  /** A busy port after its stagger: only the yellow LED, lit in the second half of the period. */
  lemma BusyLeds(port: int, state: ChannelState, ms: U64)
    requires InProgress(state) && 0 <= port * 70 <= ms
    ensures SetLeds(port, state, ms) == Leds(false, !((ms - port * 70) % 600 < 300), false)
  {
    assert Wrap(ms - port * 70) == ms - port * 70;
  }

  /** The busy blink, 600 ms long: half a period later the opposite phase, a period later the same. */
  lemma BusyPeriod(x: nat)
    ensures ((x + 300) % 600 < 300) == !(x % 600 < 300)
    ensures (x + 600) % 600 == x % 600
  {
    var q, r := x / 600, x % 600;
    assert x + 600 == 600 * (q + 1) + r;
    if r < 300 {
      assert x + 300 == 600 * q + (r + 300);
    } else {
      assert x + 300 == 600 * (q + 1) + (r - 300);
    }
  }

  /** The verifying blink, 200 ms long: half a period later the opposite phase, a period later the same. */
  lemma VerifyingPeriod(x: nat)
    ensures ((x + 100) % 200 < 100) == !(x % 200 < 100)
    ensures (x + 200) % 200 == x % 200
  {
    var q, r := x / 200, x % 200;
    assert x + 200 == 200 * (q + 1) + r;
    if r < 100 {
      assert x + 100 == 200 * q + (r + 100);
    } else {
      assert x + 100 == 200 * (q + 1) + (r - 100);
    }
  }

  /** Each port blinks 70 ms behind the port before it, so a busy hub shows a running light. */
  lemma BusyStaggered(port: int, state: ChannelState, ms: U64)
    requires InProgress(state) && 0 <= port && ms + 70 < TWO_64
    ensures SetLeds(port + 1, state, ms + 70) == SetLeds(port, state, ms)
  {
    assert ms + 70 - (port + 1) * 70 == ms - port * 70;
  }

  /** A verifying port's yellow LED: 100 ms off, 100 ms on, 20 ms behind the port before it. */
  lemma VerifyingBlinks(port: int, ms: U64)
    requires 0 <= port * 20 <= ms && ms + 100 < TWO_64
    ensures SetLeds(port, Verifying, ms + 100).yellow == !SetLeds(port, Verifying, ms).yellow
    ensures SetLeds(port + 1, Verifying, ms + 20) == SetLeds(port, Verifying, ms)
  {
    var x := ms - port * 20;
    assert Wrap(x) == x && Wrap(x + 100) == x + 100;
    VerifyingPeriod(x);
    assert ms + 20 - (port + 1) * 20 == x;
  }

  /** An indicating port lights red, yellow, green and nothing in turn, 80 ms each. */
  lemma IndicatingCycles(port: int, ms: U64)
    requires ms + 80 < TWO_64
    ensures var l := SetLeds(port, Indicating, ms);
      (l.red ==> !l.yellow && !l.green) && (l.yellow ==> !l.green)
    ensures var phase := ms / 80 % 4;
      SetLeds(port, Indicating, ms + 80) ==
        (if phase == 3 then Leds(true, false, false)
         else if phase == 0 then Leds(false, true, false)
         else if phase == 1 then Leds(false, false, true)
         else Leds(false, false, false))
  {
    assert (ms + 80) / 80 == ms / 80 + 1;
  }

  // ---------------------------------------------------------------------------
  // The shift-register frame
  // ---------------------------------------------------------------------------

  /** Bits per hub in the shift-register chain, and of the whole frame. */
  const HUB_BITS: nat := 24
  const FRAME_BITS: nat := HUB_BITS * NUMBER_OF_HUBS

  /** Where, within its hub's 24 bits, each port's red, yellow and green LED sits. */
  const RED_OFFSETS: seq<nat> := [1, 4, 7, 11, 14, 18, 21]
  const YELLOW_OFFSETS: seq<nat> := [2, 5, 9, 12, 15, 19, 22]
  const GREEN_OFFSETS: seq<nat> := [3, 6, 10, 13, 17, 20, 23]

  function Offset(port: nat, c: Colour): (o: nat)
    requires port < PORTS_PER_CHANNEL
    ensures 0 < o < 24 && o != 8 && o != 16
  {
    match c
    case Red => RED_OFFSETS[port]
    case Yellow => YELLOW_OFFSETS[port]
    case Green => GREEN_OFFSETS[port]
  }

  /** Which port and colour a bit of a hub's block shows, if any. */
  function Role(offset: nat): (r: Option<(nat, Colour)>)
    ensures r.Some? ==> r.value.0 < PORTS_PER_CHANNEL
  {
    if offset == 1 then Some((0, Red)) else if offset == 2 then Some((0, Yellow))
    else if offset == 3 then Some((0, Green)) else if offset == 4 then Some((1, Red))
    else if offset == 5 then Some((1, Yellow)) else if offset == 6 then Some((1, Green))
    else if offset == 7 then Some((2, Red)) else if offset == 9 then Some((2, Yellow))
    else if offset == 10 then Some((2, Green)) else if offset == 11 then Some((3, Red))
    else if offset == 12 then Some((3, Yellow)) else if offset == 13 then Some((3, Green))
    else if offset == 14 then Some((4, Red)) else if offset == 15 then Some((4, Yellow))
    else if offset == 17 then Some((4, Green)) else if offset == 18 then Some((5, Red))
    else if offset == 19 then Some((5, Yellow)) else if offset == 20 then Some((5, Green))
    else if offset == 21 then Some((6, Red)) else if offset == 22 then Some((6, Yellow))
    else if offset == 23 then Some((6, Green)) else None
  }

  /**
   * The layout is a bijection between the 21 LEDs of a hub and the bits of
   * its block other than 0, 8 and 16: distinct LEDs have distinct bits, and
   * bits 0, 8 and 16 show nothing.
   */
  lemma LayoutBijective(port: nat, c: Colour, offset: nat)
    requires port < PORTS_PER_CHANNEL
    ensures 0 < Offset(port, c) < HUB_BITS && Offset(port, c) !in {8, 16}
    ensures Role(Offset(port, c)) == Some((port, c))
    ensures offset < HUB_BITS && Role(offset).Some? ==> Offset(Role(offset).value.0, Role(offset).value.1) == offset
    ensures Role(offset).None? <==> offset !in {1, 2, 3, 4, 5, 6, 7, 9, 10, 11, 12, 13, 14, 15, 17, 18, 19, 20, 21, 22, 23}
  {
  }

  /** Distinct (hub, port, colour) triples drive distinct bits of the frame; hub blocks do not overlap. */
  lemma FrameBitsDistinct(hub: nat, port: nat, c: Colour, hub': nat, port': nat, c': Colour)
    requires hub < NUMBER_OF_HUBS && port < PORTS_PER_CHANNEL && hub' < NUMBER_OF_HUBS && port' < PORTS_PER_CHANNEL
    requires HUB_BITS * hub + Offset(port, c) == HUB_BITS * hub' + Offset(port', c')
    ensures hub == hub' && port == port' && c == c'
  {
    LayoutBijective(port, c, 0);
    LayoutBijective(port', c', 0);
  }

  /** The LEDs of the seven ports of a hub. */
  function HubLeds(records: seq<ChannelInfo>, hub: nat, ms: U64): (r: seq<Leds>)
    requires |records| == MAX_USB_CHANNELS && hub < NUMBER_OF_HUBS
    ensures |r| == PORTS_PER_CHANNEL
  {
    seq(PORTS_PER_CHANNEL, p requires 0 <= p < PORTS_PER_CHANNEL =>
      SetLeds(p, records[hub * PORTS_PER_CHANNEL + p].state, ms))
  }

  /** A hub's 24-bit block showing the given LEDs: each LED's bit holds it, every other bit is 0. */
  function Block(leds: seq<Leds>): (r: seq<bool>)
    requires |leds| == PORTS_PER_CHANNEL
    ensures |r| == HUB_BITS
  {
    seq(HUB_BITS, o requires 0 <= o < HUB_BITS =>
      match Role(o)
      case None => false
      case Some((port, c)) => Shade(leds[port], c))
  }

  /** What the frame should hold: hub 0's block, then hub 1's. */
  function LedFrame(records: seq<ChannelInfo>, ms: U64): (r: seq<bool>)
    requires |records| == MAX_USB_CHANNELS
    ensures |r| == FRAME_BITS
  {
    Block(HubLeds(records, 0, ms)) + Block(HubLeds(records, 1, ms))
  }

  /** In a block, the bit of an LED holds that LED, and bits 0, 8 and 16 are off. */
  lemma BlockShows(leds: seq<Leds>, port: nat, c: Colour)
    requires |leds| == PORTS_PER_CHANNEL && port < PORTS_PER_CHANNEL
    ensures Block(leds)[Offset(port, c)] == Shade(leds[port], c)
    ensures !Block(leds)[0] && !Block(leds)[8] && !Block(leds)[16]
  {
    LayoutBijective(port, c, 0);
  }

  /** Reading the frame back: the bit of an LED is that LED, and bits 0, 8 and 16 of each block are off. */
  lemma LedFrameShows(records: seq<ChannelInfo>, ms: U64, hub: nat, port: nat, c: Colour)
    requires |records| == MAX_USB_CHANNELS && hub < NUMBER_OF_HUBS && port < PORTS_PER_CHANNEL
    ensures LedFrame(records, ms)[HUB_BITS * hub + Offset(port, c)] ==
            Shade(SetLeds(port, records[hub * PORTS_PER_CHANNEL + port].state, ms), c)
    ensures var f := LedFrame(records, ms);
      !f[HUB_BITS * hub] && !f[HUB_BITS * hub + 8] && !f[HUB_BITS * hub + 16]
  {
    var leds := HubLeds(records, hub, ms);
    BlockShows(leds, port, c);
    LayoutBijective(port, c, 0);
    var f := LedFrame(records, ms);
    forall o | 0 <= o < HUB_BITS
      ensures f[HUB_BITS * hub + o] == Block(leds)[o]
    {
      if hub == 0 {
        assert f[o] == Block(HubLeds(records, 0, ms))[o];
      } else {
        assert f[HUB_BITS + o] == Block(HubLeds(records, 1, ms))[o];
      }
    }
  }

  /** The frame depends on the records' states only. */
  lemma {:induction false} LedFrameOfStates(records: seq<ChannelInfo>, records': seq<ChannelInfo>, ms: U64)
    requires |records| == |records'| == MAX_USB_CHANNELS
    requires forall i | 0 <= i < MAX_USB_CHANNELS :: records[i].state == records'[i].state
    ensures LedFrame(records, ms) == LedFrame(records', ms)
  {
    assert HubLeds(records, 0, ms) == HubLeds(records', 0, ms);
    assert HubLeds(records, 1, ms) == HubLeds(records', 1, ms);
  }

  /** The writes of one set_leds call: a port's LEDs stored in three bits of the frame. */
  method PutLeds(bits: array<bool>, at: nat, port: nat, l: Leds)
    requires port < PORTS_PER_CHANNEL && at + HUB_BITS <= bits.Length
    modifies bits
    ensures bits[at + Offset(port, Red)] == l.red && bits[at + Offset(port, Yellow)] == l.yellow &&
            bits[at + Offset(port, Green)] == l.green
    ensures forall k | 0 <= k < bits.Length && k != at + Offset(port, Red) && k != at + Offset(port, Yellow) &&
      k != at + Offset(port, Green) :: bits[k] == old(bits[k])
  {
    bits[at + Offset(port, Red)] := l.red;
    bits[at + Offset(port, Yellow)] := l.yellow;
    bits[at + Offset(port, Green)] := l.green;
  }

  /** A block with only the LEDs of ports below `ports` written into zeros. */
  function Partial(leds: seq<Leds>, ports: nat, o: nat): bool
    requires |leds| == PORTS_PER_CHANNEL
  {
    match Role(o)
    case None => false
    case Some((port, c)) => port < ports && Shade(leds[port], c)
  }

  /** Writing the LEDs of port `port` into a block holding those of the ports below it. */
  lemma PartialStep(before: seq<bool>, after: seq<bool>, offset: nat, port: nat, leds: seq<Leds>)
    requires |before| == |after| == FRAME_BITS && offset + HUB_BITS <= FRAME_BITS
    requires port < PORTS_PER_CHANNEL && |leds| == PORTS_PER_CHANNEL
    requires after[offset + Offset(port, Red)] == leds[port].red && after[offset + Offset(port, Yellow)] == leds[port].yellow &&
             after[offset + Offset(port, Green)] == leds[port].green
    requires forall k | 0 <= k < FRAME_BITS && k != offset + Offset(port, Red) && k != offset + Offset(port, Yellow) &&
      k != offset + Offset(port, Green) :: after[k] == before[k]
    requires forall k | offset <= k < offset + HUB_BITS :: before[k] == Partial(leds, port, k - offset)
    ensures forall k | offset <= k < offset + HUB_BITS :: after[k] == Partial(leds, port + 1, k - offset)
  {
    forall k | offset <= k < offset + HUB_BITS
      ensures after[k] == Partial(leds, port + 1, k - offset)
    {
      var o := k - offset;
      PartialNext(leds, port, o);
      if o != Offset(port, Red) && o != Offset(port, Yellow) && o != Offset(port, Green) {
        assert after[k] == before[k];
      }
    }
  }

  /** Adding port `port` to a partial block changes exactly its three bits. */
  lemma PartialNext(leds: seq<Leds>, port: nat, o: nat)
    requires port < PORTS_PER_CHANNEL && |leds| == PORTS_PER_CHANNEL && o < HUB_BITS
    ensures Partial(leds, port + 1, o) ==
      if o == Offset(port, Red) then leds[port].red
      else if o == Offset(port, Yellow) then leds[port].yellow
      else if o == Offset(port, Green) then leds[port].green
      else Partial(leds, port, o)
  {
    LayoutBijective(port, Red, o);
    LayoutBijective(port, Yellow, o);
    LayoutBijective(port, Green, o);
  }

  /** The seven set_leds calls of one hub, writing `leds` into a block of zeros, fill the block as the frame should. */
  method PutHub(bits: array<bool>, leds: seq<Leds>, hub: nat)
    requires bits.Length == FRAME_BITS && |leds| == PORTS_PER_CHANNEL && hub < NUMBER_OF_HUBS
    requires forall k | HUB_BITS * hub <= k < HUB_BITS * hub + HUB_BITS :: !bits[k]
    modifies bits
    ensures forall k | HUB_BITS * hub <= k < HUB_BITS * hub + HUB_BITS :: bits[k] == Block(leds)[k - HUB_BITS * hub]
    ensures forall k | 0 <= k < FRAME_BITS && !(HUB_BITS * hub <= k < HUB_BITS * hub + HUB_BITS) :: bits[k] == old(bits[k])
  {
    var offset := hub * HUB_BITS;
    forall k | offset <= k < offset + HUB_BITS
      ensures bits[k] == Partial(leds, 0, k - offset)
    {
    }
    for port := 0 to PORTS_PER_CHANNEL
      invariant forall k | offset <= k < offset + HUB_BITS :: bits[k] == Partial(leds, port, k - offset)
      invariant forall k | 0 <= k < FRAME_BITS && !(offset <= k < offset + HUB_BITS) :: bits[k] == old(bits[k])
    {
      PutPort(bits, offset, port, leds);
    }
    PartialWhole(leds);
  }

  /** One set_leds call of PutHub: the block goes from holding the ports below `port` to holding `port` too. */
  method PutPort(bits: array<bool>, offset: nat, port: nat, leds: seq<Leds>)
    requires bits.Length == FRAME_BITS && offset + HUB_BITS <= FRAME_BITS
    requires port < PORTS_PER_CHANNEL && |leds| == PORTS_PER_CHANNEL
    requires forall k | offset <= k < offset + HUB_BITS :: bits[k] == Partial(leds, port, k - offset)
    modifies bits
    ensures forall k | offset <= k < offset + HUB_BITS :: bits[k] == Partial(leds, port + 1, k - offset)
    ensures forall k | 0 <= k < FRAME_BITS && !(offset <= k < offset + HUB_BITS) :: bits[k] == old(bits[k])
  {
    ghost var before := bits[..];
    PutLeds(bits, offset, port, leds[port]);
    PartialStep(before, bits[..], offset, port, leds);
  }

  /** With every port written, the partial block is the whole block. */
  lemma PartialWhole(leds: seq<Leds>)
    requires |leds| == PORTS_PER_CHANNEL
    ensures forall o | 0 <= o < HUB_BITS :: Partial(leds, PORTS_PER_CHANNEL, o) == Block(leds)[o]
  {
  }

  // ---------------------------------------------------------------------------
  // Push buttons
  // ---------------------------------------------------------------------------

  /** The statics one button's edge detector keeps between ticks, and its pending event. */
  datatype Detector = Detector(pressStart: U64, isPressed: bool, waitForRelease: bool, prevValue: int, state: ButtonState)

  /** A button at start-up: released, no press seen, no event. */
  const Idle: Detector := Detector(0, false, false, 1, NotPressed)

  /** The `long` press duration: the uint64 difference read as signed. */
  function Duration(ms: U64, start: U64): (r: int)
    ensures start <= ms ==> r == (if ms - start < TWO_63 then ms - start else ms - start - TWO_64)
  {
    ToLong(Wrap(ms - start))
  }

  /**
   * One tick of a button with line level `value` (0 is pressed): a falling
   * edge starts a press; otherwise a press held long enough fires a long
   * press once; otherwise the release of a tracked press fires a short
   * press unless a long one fired or the press was too brief.
   */
  function Step(d: Detector, value: int, ms: U64): (r: Detector)
    ensures r.prevValue == value
    ensures value == 0 && d.prevValue == 1 ==> r == d.(pressStart := ms, isPressed := true, waitForRelease := false, prevValue := 0)
    ensures d.prevValue == 0 && value == 0 && d.waitForRelease ==> r == d
  {
    var duration := Duration(ms, d.pressStart);
    var d' :=
      if value == 0 && d.prevValue == 1 then
        d.(waitForRelease := false, pressStart := ms, isPressed := true)
      else if duration >= LONG_PRESS_TIME && value == 0 && !d.waitForRelease then
        d.(state := LongPress, waitForRelease := true)
      else if value == 1 && d.prevValue == 0 && d.isPressed then
        d.(state := if !d.waitForRelease && duration >= SHORT_PRESS_TIME then ShortPress else d.state, isPressed := false)
      else d;
    d'.(prevValue := value)
  }

  /** Ticks while the button stays down, at the given times. */
  function Held(d: Detector, times: seq<U64>): (r: Detector)
    decreases |times|
  {
    if times == [] then d else Held(Step(d, 0, times[0]), times[1..])
  }

  /** The pending event after a long press has fired stays put however long the button is held. */
  lemma {:induction false} QuietWhileWaiting(d: Detector, times: seq<U64>)
    requires d.prevValue == 0 && d.waitForRelease
    ensures Held(d, times) == d
    decreases |times|
  {
    if times != [] {
      QuietWhileWaiting(Step(d, 0, times[0]), times[1..]);
    }
  }

  /**
   * Ticks while a tracked press is held, all within 2^63 ms of its start:
   * once a tick sees the button held LONG_PRESS_TIME, a long press fires
   * and the detector waits for release; before that nothing changes.
   */
  lemma {:induction false} HeldPress(d: Detector, times: seq<U64>)
    requires d.prevValue == 0 && d.isPressed
    requires forall i | 0 <= i < |times| :: d.pressStart <= times[i] < d.pressStart + TWO_63
    ensures var r := Held(d, times);
      (d.waitForRelease ==> r == d) &&
      (!d.waitForRelease && (forall i | 0 <= i < |times| :: times[i] < d.pressStart + LONG_PRESS_TIME) ==> r == d) &&
      (!d.waitForRelease && (exists i | 0 <= i < |times| :: times[i] >= d.pressStart + LONG_PRESS_TIME) ==>
        r == d.(state := LongPress, waitForRelease := true))
    decreases |times|
  {
    if times == [] {
    } else if d.waitForRelease {
      QuietWhileWaiting(d, times);
    } else {
      var d1 := Step(d, 0, times[0]);
      HeldPress(d1, times[1..]);
      if times[0] >= d.pressStart + LONG_PRESS_TIME {
        assert d1 == d.(state := LongPress, waitForRelease := true);
      } else {
        assert d1 == d;
        if exists i | 0 <= i < |times| :: times[i] >= d.pressStart + LONG_PRESS_TIME {
          var i :| 0 <= i < |times| && times[i] >= d.pressStart + LONG_PRESS_TIME;
          assert times[1..][i - 1] == times[i];
        }
      }
    }
  }

  /**
   * A whole press: pushed at `t0`, held through the ticks at `times`,
   * released at `t1`. The press ends untracked, and leaves a long press if
   * a tick saw it held LONG_PRESS_TIME, otherwise a short press if it
   * lasted SHORT_PRESS_TIME, otherwise the event that was pending.
   */
  lemma PressOutcome(d: Detector, t0: U64, times: seq<U64>, t1: U64)
    requires d.prevValue == 1
    requires forall i | 0 <= i < |times| :: t0 <= times[i] < t0 + TWO_63
    requires t0 <= t1 < t0 + TWO_63
    ensures var r := Step(Held(Step(d, 0, t0), times), 1, t1);
      !r.isPressed && r.prevValue == 1 &&
      r.state == (if exists i | 0 <= i < |times| :: times[i] >= t0 + LONG_PRESS_TIME then LongPress
                  else if t1 - t0 >= SHORT_PRESS_TIME then ShortPress
                  else d.state)
  {
    HeldPress(Step(d, 0, t0), times);
  }

  /** get_button_state: the pending event, and the detector with it consumed. */
  function Taken(d: Detector): (r: (ButtonState, Detector))
    ensures r.0 == d.state && r.1.state == NotPressed
    ensures r.1.(state := d.state) == d
  {
    (d.state, d.(state := NotPressed))
  }

  /** The both-button condition: one button holds a long press and the other any event. */
  function BothHeld(s0: ButtonState, s1: ButtonState): (r: bool)
    ensures r <==> s0 != NotPressed && s1 != NotPressed && (s0 == LongPress || s1 == LongPress)
  {
    (s0 == LongPress && s1 != NotPressed) || (s1 == LongPress && s0 != NotPressed)
  }

  /** One button's detector statics and pending event (button_stateN). */
  class Button {
    var pressStart: U64
    var isPressed: bool
    var waitForRelease: bool
    var prevValue: int
    var state: ButtonState

    function Snap(): Detector
      reads this
    {
      Detector(pressStart, isPressed, waitForRelease, prevValue, state)
    }

    constructor ()
      ensures Snap() == Idle
    {
      pressStart, isPressed, waitForRelease, prevValue, state := 0, false, false, 1, NotPressed;
    }

    /** One tick with line level `value`; a negative level is a read error and ends the program. */
    method Tick(value: int, ms: U64) returns (ok: bool)
      modifies this
      ensures ok == (value >= 0)
      ensures ok ==> Snap() == Step(old(Snap()), value, ms)
      ensures !ok ==> Snap() == old(Snap())
    {
      if value < 0 {
        return false;
      }
      var pressDuration := ToLong(Wrap(ms - pressStart));
      if value == 0 && prevValue == 1 {
        waitForRelease := false;
        pressStart := ms;
        isPressed := true;
      } else if pressDuration >= LONG_PRESS_TIME && value == 0 && !waitForRelease {
        state := LongPress;
        waitForRelease := true;
      } else if value == 1 && prevValue == 0 && isPressed {
        if !waitForRelease && pressDuration >= SHORT_PRESS_TIME {
          state := ShortPress;
        }
        isPressed := false;
      }
      prevValue := value;
      return true;
    }

    /** get_button_state0/1: the pending event, reset to NOT_PRESSED. */
    method Take() returns (s: ButtonState)
      modifies this
      ensures (s, Snap()) == Taken(old(Snap()))
    {
      s := state;
      if s != NotPressed {
        state := NotPressed;
      }
    }
  }

  // ---------------------------------------------------------------------------
  // One tick of the panel thread
  // ---------------------------------------------------------------------------

  datatype TickResult =
    | ReadError        // a button line could not be read: the program exits
    | Shown(halted: bool)  // the frame was updated; `halted` when both buttons stopped every channel

  /** The panel: the shared segment, the two buttons and the LED frame (bits). */
  class Panel {
    const sd: SharedData
    const button0: Button
    const button1: Button
    const bits: array<bool>

    ghost predicate Valid()
      reads this, sd
    {
      sd.Valid() && bits.Length == FRAME_BITS && button0 != button1
    }

    /** gpio_init's state: both buttons idle, the frame zeroed. */
    constructor (sd: SharedData)
      requires sd.Valid()
      ensures Valid() && this.sd == sd && fresh(bits) && fresh(button0) && fresh(button1)
      ensures button0.Snap() == Idle && button1.Snap() == Idle
      ensures forall k | 0 <= k < bits.Length :: !bits[k]
    {
      this.sd := sd;
      button0 := new Button();
      button1 := new Button();
      bits := new bool[FRAME_BITS](_ => false);
    }

    /** The both-button stop: every channel's halt flag set, nothing else changed. */
    method HaltAll()
      requires Valid()
      modifies sd.channelInfo
      ensures forall i | 0 <= i < MAX_USB_CHANNELS :: sd.channelInfo[i] == old(sd.channelInfo[i]).(halt := true)
    {
      for deviceId := 0 to MAX_USB_CHANNELS
        invariant forall i | 0 <= i < deviceId :: sd.channelInfo[i] == old(sd.channelInfo[i]).(halt := true)
        invariant forall i | deviceId <= i < MAX_USB_CHANNELS :: sd.channelInfo[i] == old(sd.channelInfo[i])
      {
        sd.channelInfo[deviceId] := sd.channelInfo[deviceId].(halt := true);
      }
    }

    /** The LED update: the frame cleared, then each hub's block filled from its records' states. */
    method UpdateLeds(ms: U64)
      requires Valid()
      modifies bits
      ensures bits[..] == LedFrame(sd.channelInfo[..], ms)
    {
      var records := sd.channelInfo[..];
      forall k | 0 <= k < bits.Length {
        bits[k] := false;
      }
      PutHub(bits, HubLeds(records, 0, ms), 0);
      PutHub(bits, HubLeds(records, 1, ms), 1);
      forall k | 0 <= k < FRAME_BITS
        ensures bits[k] == LedFrame(records, ms)[k]
      {
      }
    }

    /**
     * One pass of gpio_thread_function: button 0, then button 1, then the
     * both-button stop (all channels halted, both events consumed once the
     * buttons are let go), then the LED frame.
     */
    method Tick(value0: int, value1: int, ms: U64) returns (r: TickResult)
      requires Valid()
      modifies button0, button1, sd.channelInfo, bits
      ensures Valid()
      ensures value0 < 0 ==> r == ReadError && button0.Snap() == old(button0.Snap()) && button1.Snap() == old(button1.Snap())
      ensures value0 >= 0 ==> button0.Snap().(state := NotPressed) == Step(old(button0.Snap()), value0, ms).(state := NotPressed)
      ensures value0 >= 0 && value1 < 0 ==>
        r == ReadError && button0.Snap() == Step(old(button0.Snap()), value0, ms) && button1.Snap() == old(button1.Snap())
      ensures value0 >= 0 && value1 >= 0 ==>
        var d0 := Step(old(button0.Snap()), value0, ms);
        var d1 := Step(old(button1.Snap()), value1, ms);
        var halted := BothHeld(d0.state, d1.state);
        r == Shown(halted) &&
        button0.Snap() == (if halted then d0.(state := NotPressed) else d0) &&
        button1.Snap() == (if halted then d1.(state := NotPressed) else d1) &&
        (forall i | 0 <= i < MAX_USB_CHANNELS ::
          sd.channelInfo[i] == (if halted then old(sd.channelInfo[i]).(halt := true) else old(sd.channelInfo[i]))) &&
        bits[..] == LedFrame(sd.channelInfo[..], ms)
      ensures r.ReadError? ==> sd.channelInfo[..] == old(sd.channelInfo[..])
    {
      var ok := button0.Tick(value0, ms);
      if !ok {
        return ReadError;
      }
      ok := button1.Tick(value1, ms);
      if !ok {
        return ReadError;
      }
      var halted := BothHeld(button0.state, button1.state);
      if halted {
        HaltAll();
        button0.state := NotPressed;
        button1.state := NotPressed;
      }
      UpdateLeds(ms);
      return Shown(halted);
    }
  }
}
