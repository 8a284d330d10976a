/**
 * Helpers shared by the supervisor and the workers (utilities.c): state
 * names, the name ordering the copy engine sorts by, whitespace trimming,
 * the USB route extraction and the hub/port lookup.
 *
 * C strings are modelled as `string` holding the characters before the
 * terminator; a character buffer that is rewritten in place is an
 * `array<char>` holding a terminator somewhere.
 */
module Utilities {
  import opened Globals
  import opened ControlPlane

  // ---------------------------------------------------------------------------
  // get_state_name
  // ---------------------------------------------------------------------------

  /** The printable name of a state; the two states outside the switch print as "UNKNOWN". */
  function StateName(s: ChannelState): (name: string)
    ensures name == "UNKNOWN" <==> s == Unused || s == NotInUse
    ensures |name| >= 5
  {
    match s
    case Empty => "EMPTY"
    case Ready => "READY"
    case Starting => "STARTING"
    case Erasing => "ERASING"
    case Formating => "FORMATING"
    case Partitioning => "PARTITIONING"
    case Mounting => "MOUNTING"
    case Copying => "COPYING"
    case Unmounting => "UNMOUNTING"
    case Verifying => "VERIFYING"
    case Success => "SUCCESS"
    case Failed => "FAILED"
    case CrcFailed => "CRC_FAILED"
    case LedTest => "LED_TEST"
    case Indicating => "INDICATING"
    case Unused => "UNKNOWN"
    case NotInUse => "UNKNOWN"
  }

  /** Two different declared states never print the same name. */
  lemma StateNamesDistinct(a: ChannelState, b: ChannelState)
    requires a != b && StateName(a) != "UNKNOWN"
    ensures StateName(a) != StateName(b)
  {
  }

  // ---------------------------------------------------------------------------
  // compare_names: strcmp
  // ---------------------------------------------------------------------------

  /**
   * The sign of strcmp(a, b): the first differing character decides, and a
   * proper prefix sorts first. Code points are compared, which orders
   * UTF-8 encoded names exactly as their unsigned bytes do.
   */
  function CompareNames(a: string, b: string): (r: int)
    ensures -1 <= r <= 1
    ensures r == 0 <==> a == b
  {
    if a == [] && b == [] then 0
    else if a == [] then -1
    else if b == [] then 1
    else if a[0] < b[0] then -1
    else if a[0] > b[0] then 1
    else
      var r := CompareNames(a[1..], b[1..]);
      assert r == 0 <==> a == b by {
        assert a == [a[0]] + a[1..] && b == [b[0]] + b[1..];
      }
      r
  }

  /** Swapping the arguments flips the sign. */
  lemma {:induction false} CompareNamesAntisymmetric(a: string, b: string)
    ensures CompareNames(a, b) == -CompareNames(b, a)
    decreases |a|
  {
    if a != [] && b != [] && a[0] == b[0] {
      CompareNamesAntisymmetric(a[1..], b[1..]);
    }
  }

  /** The order is transitive, so sorting by it is well defined. */
  lemma {:induction false} CompareNamesTransitive(a: string, b: string, c: string)
    requires CompareNames(a, b) < 0 && CompareNames(b, c) < 0
    ensures CompareNames(a, c) < 0
    decreases |a|
  {
    if a != [] && b != [] && c != [] && a[0] == b[0] && b[0] == c[0] {
      CompareNamesTransitive(a[1..], b[1..], c[1..]);
    }
  }

  /** A name sorts before every proper extension of it. */
  lemma {:induction false} CompareNamesPrefix(a: string, tail: string)
    requires tail != []
    ensures CompareNames(a, a + tail) < 0
    decreases |a|
  {
    if a != [] {
      assert (a + tail)[1..] == a[1..] + tail;
      CompareNamesPrefix(a[1..], tail);
    }
  }

  // ---------------------------------------------------------------------------
  // trim
  // ---------------------------------------------------------------------------

  /** isspace in the C locale. */
  predicate IsSpace(c: char) {
    c == ' ' || c == '\t' || c == '\n' || c == '\r' || c as int == 11 || c as int == 12
  }

  /** Every character of `s` in [lo, hi) is whitespace. */
  predicate SpacesBetween(s: string, lo: nat, hi: nat)
    requires lo <= hi <= |s|
  {
    forall k | lo <= k < hi :: IsSpace(s[k])
  }

  /** strlen: the index of the first terminator. */
  function StrLen(s: seq<char>): (n: nat)
    requires '\0' in s
    ensures n < |s| && s[n] == '\0'
    ensures forall k | 0 <= k < n :: s[k] != '\0'
  {
    if s[0] == '\0' then 0 else 1 + StrLen(s[1..])
  }

  /** The C string a terminated buffer holds. */
  function CStr(s: seq<char>): (r: string)
    requires '\0' in s
    ensures |r| < |s| && '\0' !in r && r == s[..|r|] && s[|r|] == '\0'
  {
    s[..StrLen(s)]
  }

  /** A buffer holding `w` followed by a terminator holds the C string `w`. */
  lemma CStrIs(t: seq<char>, w: string)
    requires |w| < |t| && t[|w|] == '\0' && '\0' !in w
    requires forall j | 0 <= j < |w| :: t[j] == w[j]
    ensures '\0' in t && CStr(t) == w
  {
  }

  /** The end of the whitespace run that starts at `i`. */
  function SkipSpaces(s: string, i: nat): (r: nat)
    requires i <= |s|
    ensures i <= r <= |s| && SpacesBetween(s, i, r)
    ensures r == |s| || !IsSpace(s[r])
    decreases |s| - i
  {
    if i == |s| || !IsSpace(s[i]) then i else SkipSpaces(s, i + 1)
  }

  /** The start of the whitespace run that ends at `j`, not going below `lo`. */
  function SkipSpacesBack(s: string, lo: nat, j: nat): (r: nat)
    requires lo <= j <= |s|
    ensures lo <= r <= j && SpacesBetween(s, r, j)
    ensures r == lo || !IsSpace(s[r - 1])
  {
    if j == lo || !IsSpace(s[j - 1]) then j else SkipSpacesBack(s, lo, j - 1)
  }

  /** `s` with its maximal leading and trailing whitespace runs removed. */
  function Trimmed(s: string): (r: string)
    ensures |r| <= |s|
    ensures r == [] || (!IsSpace(r[0]) && !IsSpace(r[|r| - 1]))
  {
    var a := SkipSpaces(s, 0);
    s[a..SkipSpacesBack(s, a, |s|)]
  }

  /**
   * Trimmed is the unique slice with only whitespace around it that neither
   * starts nor ends with whitespace; in particular an all-whitespace string
   * trims to the empty string (take a = b = 0).
   */
  lemma TrimmedIsSlice(s: string, a: nat, b: nat)
    requires a <= b <= |s|
    requires SpacesBetween(s, 0, a) && SpacesBetween(s, b, |s|)
    requires a < b ==> !IsSpace(s[a]) && !IsSpace(s[b - 1])
    ensures Trimmed(s) == s[a..b]
  {
  }

  /** The two index walks of trim: past the leading, then back over the trailing whitespace. */
  method TrimBounds(buf: array<char>, len: nat) returns (start: int, end: int)
    requires len < buf.Length
    ensures 0 <= start <= end + 1 <= len
    ensures SpacesBetween(buf[..len], 0, start) && SpacesBetween(buf[..len], end + 1, len)
    ensures start <= end ==> !IsSpace(buf[start]) && !IsSpace(buf[end])
  {
    ghost var s := buf[..len];
    start := 0;
    end := len - 1;
    while start <= end && IsSpace(buf[start])
      invariant 0 <= start <= len && end == len - 1
      invariant SpacesBetween(s, 0, start)
    {
      start := start + 1;
    }
    while end >= start && IsSpace(buf[end])
      invariant start - 1 <= end <= len - 1
      invariant SpacesBetween(s, end + 1, len)
    {
      end := end - 1;
    }
  }

  /**
   * trim, corrected: the text between the first and last non-whitespace
   * characters is moved to the front of the buffer and terminated.
   */
  method Trim(buf: array<char>)
    requires '\0' in buf[..]
    modifies buf
    ensures '\0' in buf[..]
    ensures CStr(buf[..]) == Trimmed(CStr(old(buf[..])))
  {
    ghost var s := CStr(buf[..]);
    var len := StrLen(buf[..]);
    var start, end := TrimBounds(buf, len);
    TrimmedIsSlice(s, start, end + 1);
    var n := end - start + 1;
    var k := 0;
    while k < n
      invariant 0 <= k <= n
      invariant forall j | 0 <= j < k :: buf[j] == s[start + j]
      invariant forall j | k <= j < buf.Length :: buf[j] == old(buf[j])
    {
      buf[k] := buf[start + k];
      k := k + 1;
    }
    buf[n] := '\0';
    CStrIs(buf[..], s[start..end + 1]);
  }

  /**
   * The buffer trim leaves as written: with leading whitespace it moves
   * end - start + 2 characters to the front, which carries the terminator
   * only when there is no trailing whitespace.
   */
  function TrimAsWritten(buf: seq<char>): (r: seq<char>)
    requires '\0' in buf
    ensures |r| == |buf| && '\0' in r
  {
    var s := CStr(buf);
    var start := SkipSpaces(s, 0);
    var stop := SkipSpacesBack(s, start, |s|);
    if start > 0 then buf[start..stop + 1] + buf[stop + 1 - start..]
    else buf[..stop] + ['\0'] + buf[stop + 1..]
  }

  /** With whitespace on both sides the written trim keeps a trailing space: " a " becomes "a  ". */
  lemma TrimAsWrittenKeepsSpaces()
    ensures CStr(TrimAsWritten([' ', 'a', ' ', '\0'])) == ['a', ' ', ' ']
    ensures Trimmed([' ', 'a', ' ']) == ['a']
  {
    var buf := [' ', 'a', ' ', '\0'];
    var s := [' ', 'a', ' '];
    assert StrLen(buf) == 3;
    assert CStr(buf) == s;
    assert SkipSpaces(s, 0) == 1;
    assert SkipSpacesBack(s, 1, 3) == 2;
    var r := TrimAsWritten(buf);
    assert r == ['a', ' ', ' ', '\0'];
    assert StrLen(r) == 3;
    TrimmedIsSlice(s, 1, 2);
  }

  /** Leading whitespace only: the moved block carries the terminator. */
  lemma TrimAsWrittenLeading(buf: seq<char>, s: string, start: nat)
    requires '\0' in buf && s == CStr(buf)
    requires 0 < start == SkipSpaces(s, 0) && SkipSpacesBack(s, start, |s|) == |s|
    ensures CStr(TrimAsWritten(buf)) == s[start..]
  {
    var r := TrimAsWritten(buf);
    var w := s[start..];
    assert r == buf[start..|s| + 1] + buf[|s| + 1 - start..];
    forall j | 0 <= j < |w| ensures r[j] == w[j] {
      assert r[j] == buf[start + j];
    }
    assert r[|w|] == buf[|s|];
    CStrIs(r, w);
  }

  /** No leading whitespace: the terminator is written after the last non-whitespace character. */
  lemma TrimAsWrittenTrailing(buf: seq<char>, s: string, stop: nat)
    requires '\0' in buf && s == CStr(buf)
    requires SkipSpaces(s, 0) == 0 && stop == SkipSpacesBack(s, 0, |s|)
    ensures CStr(TrimAsWritten(buf)) == s[..stop]
  {
    var r := TrimAsWritten(buf);
    var w := s[..stop];
    assert r == buf[..stop] + ['\0'] + buf[stop + 1..];
    forall j | 0 <= j < |w| ensures r[j] == w[j] {
      assert r[j] == buf[j];
    }
    CStrIs(r, w);
  }

  /** Whitespace at the front but not at the back: only the front run is skipped. */
  lemma LeadingOnly(s: string)
    requires s != [] && IsSpace(s[0]) && !IsSpace(s[|s| - 1])
    ensures SkipSpacesBack(s, SkipSpaces(s, 0), |s|) == |s|
    ensures Trimmed(s) == s[SkipSpaces(s, 0)..]
  {
    var start := SkipSpaces(s, 0);
    assert s[start..|s|] == s[start..];
  }

  /** Without whitespace on one of the two sides the written trim is correct. */
  lemma TrimAsWrittenOneSided(buf: seq<char>)
    requires '\0' in buf
    requires var s := CStr(buf); s == [] || !IsSpace(s[0]) || !IsSpace(s[|s| - 1])
    ensures CStr(TrimAsWritten(buf)) == Trimmed(CStr(buf))
  {
    var s := CStr(buf);
    var start := SkipSpaces(s, 0);
    var stop := SkipSpacesBack(s, start, |s|);
    if start > 0 {
      LeadingOnly(s);
      TrimAsWrittenLeading(buf, s, start);
    } else {
      TrimAsWrittenTrailing(buf, s, stop);
    }
  }

  // ---------------------------------------------------------------------------
  // extract_usb_path
  // ---------------------------------------------------------------------------

  predicate MatchAt(s: string, pat: string, k: nat) {
    k + |pat| <= |s| && s[k..k + |pat|] == pat
  }

  /** strstr from index `i`: the first occurrence of `pat` at or after `i`. */
  function FindFrom(s: string, pat: string, i: nat): (r: Option<nat>)
    requires i <= |s|
    ensures r.Some? ==> i <= r.value && MatchAt(s, pat, r.value)
    ensures r.Some? ==> forall k | i <= k < r.value :: !MatchAt(s, pat, k)
    ensures r.None? ==> forall k | i <= k <= |s| :: !MatchAt(s, pat, k)
    decreases |s| - i
  {
    if MatchAt(s, pat, i) then Some(i)
    else if i == |s| then None
    else FindFrom(s, pat, i + 1)
  }

  /** strstr: the first occurrence of `pat` in `s`. */
  function Find(s: string, pat: string): (r: Option<nat>)
    ensures r.Some? ==> MatchAt(s, pat, r.value) && forall k | 0 <= k < r.value :: !MatchAt(s, pat, k)
    ensures r.None? ==> forall k | 0 <= k <= |s| :: !MatchAt(s, pat, k)
  {
    FindFrom(s, pat, 0)
  }

  /** The backward scan for ':' from `h`, stopping at index 0. */
  function ColonEnd(s: string, h: nat): (e: nat)
    requires h < |s|
    ensures e <= h && (e == 0 || s[e] == ':')
    ensures forall k | e < k <= h :: s[k] != ':'
  {
    if h == 0 || s[h] == ':' then h else ColonEnd(s, h - 1)
  }

  /** The backward scan from `e` to just after the previous '/', stopping at index 0. */
  function SegmentStart(s: string, e: nat): (st: nat)
    requires e <= |s|
    ensures st <= e && (st == 0 || s[st - 1] == '/')
    ensures forall k | st <= k < e :: s[k] != '/'
  {
    if e == 0 || s[e - 1] == '/' then e else SegmentStart(s, e - 1)
  }

  /** What extract_usb_path computes: the text between the last '/' and the last ':' before the first "/host". */
  function UsbPathOf(input: string): (r: string)
    ensures '/' !in r
    ensures Find(input, "/host").None? ==> r == []
  {
    match Find(input, "/host")
    case None => []
    case Some(h) =>
      var e := ColonEnd(input, h);
      var st := SegmentStart(input, e);
      assert forall k | 0 <= k < e - st :: input[st..e][k] == input[st + k];
      input[st..e]
  }

  /**
   * extract_usb_path: walks back from "/host" to the previous ':', then back
   * to the previous '/', and copies what lies between. With no "/host" the
   * output stays empty.
   */
  method ExtractUsbPath(input: string) returns (output: string)
    ensures output == UsbPathOf(input)
  {
    output := [];
    var host := Find(input, "/host");
    if host.None? {
      return;
    }
    var end := host.value;
    while end > 0 && input[end] != ':'
      invariant 0 <= end <= host.value
      invariant ColonEnd(input, end) == ColonEnd(input, host.value)
    {
      end := end - 1;
    }
    var start := end;
    while start > 0 && input[start - 1] != '/'
      invariant 0 <= start <= end
      invariant SegmentStart(input, start) == SegmentStart(input, end)
    {
      start := start - 1;
    }
    output := input[start..end];
  }

  /** A character that differs from the pattern rules out a match. */
  lemma Mismatch(s: string, pat: string, k: nat, j: nat)
    requires j < |pat| && k + j < |s| && s[k + j] != pat[j]
    ensures !MatchAt(s, pat, k)
  {
    if k + |pat| <= |s| {
      assert s[k..k + |pat|][j] == s[k + j];
    }
  }

  /** The route of a sysfs link is the port segment before the interface suffix, not the suffix. */
  lemma UsbPathExample(s: string)
    requires s == "/1-1:1.0/host0"
    ensures UsbPathOf(s) == "1-1"
  {
    assert |s| == 14;
    FindExample(s);
    assert ColonEnd(s, 5) == 4;
    assert ColonEnd(s, 6) == 4;
    assert ColonEnd(s, 7) == 4;
    assert ColonEnd(s, 8) == 4;
    assert SegmentStart(s, 1) == 1;
    assert SegmentStart(s, 2) == 1;
    assert SegmentStart(s, 3) == 1;
    assert SegmentStart(s, 4) == 1;
    assert s[1..4] == "1-1";
  }

  /** The first "/host" of the example link starts at index 8. */
  lemma FindExample(s: string)
    requires s == "/1-1:1.0/host0"
    ensures Find(s, "/host") == Some(8)
  {
    assert s[8..13] == "/host";
    assert MatchAt(s, "/host", 8);
    Mismatch(s, "/host", 0, 1);
    Mismatch(s, "/host", 1, 0);
    Mismatch(s, "/host", 2, 0);
    Mismatch(s, "/host", 3, 0);
    Mismatch(s, "/host", 4, 0);
    Mismatch(s, "/host", 5, 0);
    Mismatch(s, "/host", 6, 0);
    Mismatch(s, "/host", 7, 0);
    var r := Find(s, "/host");
    assert r.Some?;
    assert r.value >= 8;
  }

  // ---------------------------------------------------------------------------
  // get_device_id_from_hub_and_port_number
  // ---------------------------------------------------------------------------

  /**
   * The lowest slot with the given hub and port numbers; None where the
   * source prints an error and exits the process.
   */
  method GetDeviceIdFromHubAndPortNumber(sd: SharedData, hub: int, port: int) returns (r: Option<nat>)
    requires sd.Valid()
    ensures r == IndexOfHubPort(sd.channelInfo[..], hub, port)
  {
    var records := sd.channelInfo[..];
    var id := 0;
    while id < MAX_USB_CHANNELS
      invariant 0 <= id <= MAX_USB_CHANNELS
      invariant forall k | 0 <= k < id :: !(records[k].hubNumber == hub && records[k].portNumber == port)
    {
      if sd.channelInfo[id].portNumber == port && sd.channelInfo[id].hubNumber == hub {
        return Some(id);
      }
      id := id + 1;
    }
    return None;
  }
}
