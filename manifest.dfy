/**
 * The CRC manifest: one line per copied file, `<path>\t<crc as %08x>\n`,
 * written by the copy engine (utilities.c, copy_file) and read back line by
 * line by the verifier (client.c, fgets into a 512-byte buffer, then
 * parse_crc_file with strtoul in base 16).
 */
module Manifest {
  import opened Globals
  import opened Utilities

  /** ULONG_MAX on the 64-bit target. */
  const ULONG_MAX: nat := 0xFFFF_FFFF_FFFF_FFFF

  /** Capacity of the verifier's line buffer: fgets keeps one byte for the terminator. */
  const LINE_BUFFER: nat := 2 * STRING_LEN

  // ---------------------------------------------------------------------------
  // Hex digits
  // ---------------------------------------------------------------------------

  predicate IsHexDigit(c: char) {
    ('0' <= c <= '9') || ('a' <= c <= 'f') || ('A' <= c <= 'F')
  }

  function DigitValue(c: char): (v: nat)
    requires IsHexDigit(c)
    ensures v < 16
  {
    if '0' <= c <= '9' then c as int - '0' as int
    else if 'a' <= c <= 'f' then c as int - 'a' as int + 10
    else c as int - 'A' as int + 10
  }

  /** The lower-case digit printf's %x uses for `d`. */
  function HexChar(d: nat): (c: char)
    requires d < 16
    ensures IsHexDigit(c) && DigitValue(c) == d
    ensures !('A' <= c <= 'F')
  {
    if d < 10 then ('0' as int + d) as char else ('a' as int + d - 10) as char
  }

  function Pow16(k: nat): (p: nat)
    ensures p >= 1
  {
    if k == 0 then 1 else 16 * Pow16(k - 1)
  }

  /** The low `k` hex digits of `n`, most significant first, zero padded. */
  function HexDigits(n: nat, k: nat): (s: string)
    ensures |s| == k
    ensures forall i | 0 <= i < k :: IsHexDigit(s[i]) && !('A' <= s[i] <= 'F')
  {
    if k == 0 then [] else HexDigits(n / 16, k - 1) + [HexChar(n % 16)]
  }

  /** The value of a run of hex digits, read most significant first. */
  function HexValue(s: string): nat
    requires forall i | 0 <= i < |s| :: IsHexDigit(s[i])
  {
    if s == [] then 0 else 16 * HexValue(s[..|s| - 1]) + DigitValue(s[|s| - 1])
  }

  /** Reading back `k` printed digits of a number below 16^k gives the number. */
  lemma {:induction false} HexValueOfDigits(n: nat, k: nat)
    requires n < Pow16(k)
    ensures HexValue(HexDigits(n, k)) == n
  {
    if k > 0 {
      var s := HexDigits(n, k);
      assert s[..|s| - 1] == HexDigits(n / 16, k - 1);
      assert n / 16 < Pow16(k - 1);
      HexValueOfDigits(n / 16, k - 1);
    }
  }

  /** "%08x": eight lower-case hex digits. */
  function Hex8(crc: bv32): (s: string)
    ensures |s| == 8
    ensures forall i | 0 <= i < 8 :: IsHexDigit(s[i]) && !('A' <= s[i] <= 'F')
  {
    HexDigits(crc as int, 8)
  }

  lemma Hex8Value(crc: bv32)
    ensures HexValue(Hex8(crc)) == crc as int
  {
    assert Pow16(2) == 0x100;
    assert Pow16(4) == 0x1_0000;
    assert Pow16(6) == 0x100_0000;
    assert Pow16(8) == 0x1_0000_0000;
    HexValueOfDigits(crc as int, 8);
  }

  // ---------------------------------------------------------------------------
  // Writer
  // ---------------------------------------------------------------------------

  /** The manifest names a file by its destination path with the RAM-drive prefix and its slash dropped. */
  function ManifestPath(destPath: string): (p: string)
    requires |destPath| > |RAMDIR_PATH|
    ensures destPath == destPath[..|RAMDIR_PATH| + 1] + p
  {
    destPath[|RAMDIR_PATH| + 1..]
  }

  /** One manifest line: the path, a tab, the CRC as %08x, a newline. */
  function FormatLine(path: string, crc: bv32): (line: string)
    ensures |line| == |path| + 10
    ensures line[..|path|] == path && line[|path|] == '\t' && line[|line| - 1] == '\n'
  {
    path + "\t" + Hex8(crc) + "\n"
  }

  // ---------------------------------------------------------------------------
  // fgets
  // ---------------------------------------------------------------------------

  /** fgets from `i`: up to and including the first newline, at most `room` characters. */
  function LineFrom(text: string, i: nat, room: nat): (n: nat)
    requires i <= |text|
    ensures i <= n <= |text| && n - i <= room
    ensures forall k | i <= k < n - 1 :: text[k] != '\n'
    ensures n == |text| || n - i == room || (n > i && text[n - 1] == '\n')
    decreases room
  {
    if i == |text| || room == 0 then i
    else if text[i] == '\n' then i + 1
    else LineFrom(text, i + 1, room - 1)
  }

  /**
   * One call of fgets with the verifier's 512-byte buffer: None at end of
   * file, otherwise the line read and what remains.
   */
  function Fgets(text: string): (r: Option<(string, string)>)
    ensures text == [] <==> r.None?
    ensures r.Some? ==> r.value.0 + r.value.1 == text && 0 < |r.value.0| < LINE_BUFFER
  {
    if text == [] then None
    else
      var n := LineFrom(text, 0, LINE_BUFFER - 1);
      Some((text[..n], text[n..]))
  }

  /** Every line fgets returns in turn, up to end of file. */
  function ReadLines(text: string): (lines: seq<string>)
    decreases |text|
  {
    match Fgets(text)
    case None => []
    case Some((line, rest)) => [line] + ReadLines(rest)
  }

  /** The lines read are each non-empty and shorter than the buffer, and together they are the whole text. */
  lemma {:induction false} ReadLinesWhole(text: string)
    ensures var lines := ReadLines(text);
      Concat(lines) == text && forall k | 0 <= k < |lines| :: 0 < |lines[k]| < LINE_BUFFER
    decreases |text|
  {
    match Fgets(text)
    case None =>
    case Some((line, rest)) =>
      ReadLinesWhole(rest);
      var lines := [line] + ReadLines(rest);
      assert lines[1..] == ReadLines(rest);
  }

  function Concat(lines: seq<string>): string {
    if lines == [] then [] else lines[0] + Concat(lines[1..])
  }

  /** A line fgets returns whole: one newline, at its end, and short enough for the buffer. */
  predicate WholeLine(line: string) {
    0 < |line| < LINE_BUFFER && line[|line| - 1] == '\n' && forall k | 0 <= k < |line| - 1 :: line[k] != '\n'
  }

  lemma FgetsWholeLine(line: string, rest: string)
    requires WholeLine(line)
    ensures Fgets(line + rest) == Some((line, rest))
  {
    var text := line + rest;
    var n := LineFrom(text, 0, LINE_BUFFER - 1);
    assert text[..|line|] == line;
    assert text[..n] == line;
  }

  /** Reading a manifest back with fgets gives exactly the lines written, when each is whole. */
  lemma {:induction false} ReadLinesOfConcat(lines: seq<string>)
    requires forall i | 0 <= i < |lines| :: WholeLine(lines[i])
    ensures ReadLines(Concat(lines)) == lines
    decreases |lines|
  {
    if lines != [] {
      FgetsWholeLine(lines[0], Concat(lines[1..]));
      ReadLinesOfConcat(lines[1..]);
    }
  }

  /** A line written for a path of up to 501 characters without a newline comes back whole. */
  lemma FormatLineIsWhole(path: string, crc: bv32)
    requires '\n' !in path && |path| < LINE_BUFFER - 10
    ensures WholeLine(FormatLine(path, crc))
  {
    var line := FormatLine(path, crc);
    forall k | 0 <= k < |line| - 1 ensures line[k] != '\n' {
      if k < |path| { assert line[k] == path[k]; }
      else if k > |path| { assert line[k] == Hex8(crc)[k - |path| - 1]; }
    }
  }

  // ---------------------------------------------------------------------------
  // strtoul(_, NULL, 16) and parse_crc_file
  // ---------------------------------------------------------------------------

  /** The length of the run of hex digits starting at `i`. */
  function HexRunEnd(s: string, i: nat): (j: nat)
    requires i <= |s|
    ensures i <= j <= |s| && (j == |s| || !IsHexDigit(s[j]))
    ensures forall k | i <= k < j :: IsHexDigit(s[k])
    decreases |s| - i
  {
    if i == |s| || !IsHexDigit(s[i]) then i else HexRunEnd(s, i + 1)
  }

  /**
   * strtoul in base 16: leading whitespace, an optional sign, an optional
   * 0x or 0X prefix when a hex digit follows it, then the longest run of hex
   * digits. An out-of-range magnitude gives ULONG_MAX; a minus sign negates
   * modulo 2^64.
   */
  function StrToUL16(s: string): (v: nat)
    ensures v <= ULONG_MAX
  {
    var i := SkipSpaces(s, 0);
    var neg := i < |s| && s[i] == '-';
    var j := if i < |s| && (s[i] == '-' || s[i] == '+') then i + 1 else i;
    var k := if j + 2 < |s| && s[j] == '0' && (s[j + 1] == 'x' || s[j + 1] == 'X') && IsHexDigit(s[j + 2]) then j + 2 else j;
    var e := HexRunEnd(s, k);
    var digits := s[k..e];
    HexSlice(s, k, e);
    var magnitude := HexValue(digits);
    if magnitude > ULONG_MAX then ULONG_MAX
    else if neg then (ULONG_MAX + 1 - magnitude) % (ULONG_MAX + 1)
    else magnitude
  }

  /** A run of hexadecimal digits, cut out of its string, is all hexadecimal digits. */
  lemma HexSlice(s: string, k: nat, e: nat)
    requires k <= e <= |s| && forall t | k <= t < e :: IsHexDigit(s[t])
    ensures forall t | 0 <= t < e - k :: IsHexDigit(s[k..e][t])
  {
    forall t | 0 <= t < e - k ensures IsHexDigit(s[k..e][t]) {
      assert s[k..e][t] == s[k + t];
    }
  }

  /** strstr with a one-character pattern finds the first occurrence of that character. */
  lemma FindChar(s: string, c: char)
    ensures Find(s, [c]).Some? ==> Find(s, [c]).value < |s| && s[Find(s, [c]).value] == c
    ensures Find(s, [c]).Some? ==> forall k | 0 <= k < Find(s, [c]).value :: s[k] != c
    ensures Find(s, [c]).None? ==> c !in s
  {
    var r := Find(s, [c]);
    forall k | 0 <= k < |s| && s[k] == c ensures MatchAt(s, [c], k) {
      assert s[k..k + 1] == [c];
    }
    if r.Some? {
      assert s[r.value..r.value + 1] == [c];
      assert s[r.value] == s[r.value..r.value + 1][0];
    }
  }

  /**
   * parse_crc_file: the text before the first tab, and strtoul of the rest
   * truncated to 32 bits. None where the source finds no tab and exits the
   * process with status 0.
   */
  function ParseCrcLine(line: string): (r: Option<(string, nat)>)
    ensures r.None? <==> '\t' !in line
    ensures r.Some? ==> r.value.1 < 0x1_0000_0000
    ensures r.Some? ==> '\t' !in r.value.0 && |r.value.0| < |line| && line[..|r.value.0|] == r.value.0 && line[|r.value.0|] == '\t'
  {
    FindChar(line, '\t');
    match Find(line, "\t")
    case None => None
    case Some(t) => Some((line[..t], StrToUL16(line[t + 1..]) % 0x1_0000_0000))
  }

  /** strtoul of a run of `n` hex digits that neither starts with a prefix nor is followed by a digit. */
  lemma StrToUL16Digits(s: string, n: nat)
    requires 2 <= n <= |s|
    requires forall k | 0 <= k < n :: IsHexDigit(s[k])
    requires n == |s| || !IsHexDigit(s[n])
    requires HexValue(s[..n]) <= ULONG_MAX
    ensures StrToUL16(s) == HexValue(s[..n])
  {
    assert !IsSpace(s[0]) && s[0] != '-' && s[0] != '+';
    assert SkipSpaces(s, 0) == 0;
    assert s[1] != 'x' && s[1] != 'X';
    assert HexRunEnd(s, 0) == n;
  }

  /** strtoul reads back the eight digits printed by %08x, whatever follows a non-digit. */
  lemma StrToULOfHex8(crc: bv32, tail: string)
    requires tail == [] || !IsHexDigit(tail[0])
    ensures StrToUL16(Hex8(crc) + tail) == crc as int
  {
    var h := Hex8(crc);
    var s := h + tail;
    assert s[..8] == h;
    forall k | 0 <= k < 8 ensures IsHexDigit(s[k]) { assert s[k] == h[k]; }
    Hex8Value(crc);
    StrToUL16Digits(s, 8);
  }

  /** The first tab of a manifest line is the one after the path. */
  lemma FirstTabOfFormatLine(path: string, crc: bv32)
    requires '\t' !in path
    ensures Find(FormatLine(path, crc), "\t") == Some(|path|)
  {
    var line := FormatLine(path, crc);
    FindChar(line, '\t');
    var r := Find(line, "\t");
    assert r.Some?;
  }

  lemma SmallMod(v: int)
    requires 0 <= v < 0x1_0000_0000
    ensures v % 0x1_0000_0000 == v
  {
  }

  /** Parsing a line the copy engine wrote returns the path and CRC it was written with. */
  lemma ParseFormatLine(path: string, crc: bv32)
    requires '\t' !in path
    ensures ParseCrcLine(FormatLine(path, crc)) == Some((path, crc as int))
  {
    var line := FormatLine(path, crc);
    var t := |path|;
    FirstTabOfFormatLine(path, crc);
    var rest := line[t + 1..];
    assert rest == Hex8(crc) + "\n";
    StrToULOfHex8(crc, "\n");
    var v := crc as int;
    assert StrToUL16(rest) == v;
    SmallMod(v);
    assert ParseCrcLine(line) == Some((line[..t], StrToUL16(rest) % 0x1_0000_0000));
  }
}
