/**
 * The CRC-32 engine (utilities.c, initialise_crc_table and the per-byte
 * update of copy_file; client.c, compute_crc32).
 *
 * The generator is the IEEE 802.3 polynomial 0x04C11DB7, processed
 * most-significant bit first without reflection, seeded with all ones and
 * complemented at the end: the CRC-32/BZIP2 parameter set. A `bv32` drops the
 * bits shifted out at the top exactly as a C `uint32_t` does.
 */
module Crc32 {
  import opened Globals

  const POLY: bv32 := 0x04C1_1DB7
  const INIT: bv32 := 0xFFFF_FFFF
  const XOROUT: bv32 := 0xFFFF_FFFF

  /** One round of the table generator: shift left, XOR the polynomial when the top bit falls out. */
  function Round(c: bv32): bv32 {
    (c << 1) ^ (if c & 0x8000_0000 != 0 then POLY else 0)
  }

  /** `k` rounds applied to `c`. */
  function Rounds(c: bv32, k: nat): bv32 {
    if k == 0 then c else Round(Rounds(c, k - 1))
  }

  /** Entry `i` of crc32_table: `i << 24` put through eight rounds. */
  function TableEntry(i: bv8): bv32 {
    Rounds((i as bv32) << 24, 8)
  }

  /** True when `table` holds exactly the entries initialise_crc_table computes. */
  ghost predicate IsCrcTable(table: array<bv32>)
    reads table
  {
    table.Length == 256 && forall i: bv8 :: table[i as int] == TableEntry(i)
  }

  /** The table-driven update of one byte: `(crc << 8) ^ table[((crc >> 24) ^ b) & 0xFF]`. */
  function Step(crc: bv32, b: bv8): bv32 {
    (crc << 8) ^ TableEntry((((crc >> 24) ^ (b as bv32)) & 0xFF) as bv8)
  }

  /** The table-driven register after feeding `s` to a register holding `c`. */
  function Update(c: bv32, s: seq<bv8>): bv32 {
    if s == [] then c else Step(Update(c, s[..|s| - 1]), s[|s| - 1])
  }

  function Min(a: nat, b: nat): nat { if a <= b then a else b }

  /** The CRC both the copy engine and the verifier compute: over the first CRC_SIZE bytes only. */
  function Crc(data: seq<bv8>): bv32 {
    Update(INIT, data[..Min(|data|, CRC_SIZE)]) ^ XOROUT
  }

  // ---------------------------------------------------------------------------
  // Lemmas
  // ---------------------------------------------------------------------------

  /** Eight rounds written out. */
  lemma RoundsEight(c: bv32)
    ensures Rounds(c, 8) == Round(Round(Round(Round(Round(Round(Round(Round(c))))))))
  {
    assert Rounds(c, 1) == Round(c);
    assert Rounds(c, 2) == Round(Round(c));
    assert Rounds(c, 3) == Round(Round(Round(c)));
    assert Rounds(c, 4) == Round(Round(Round(Round(c))));
    assert Rounds(c, 5) == Round(Round(Round(Round(Round(c)))));
    assert Rounds(c, 6) == Round(Round(Round(Round(Round(Round(c))))));
    assert Rounds(c, 7) == Round(Round(Round(Round(Round(Round(Round(c)))))));
  }

  /** Entry 0 is 0 and entry 1 is the polynomial itself. */
  lemma TableEntryZeroAndOne()
    ensures TableEntry(0) == 0
    ensures TableEntry(1) == POLY
  {
    RoundsEight(0);
    RoundsEight(0x0100_0000);
  }

  /** Feeding one more byte is one more Step. */
  lemma UpdateSnoc(c: bv32, s: seq<bv8>, b: bv8)
    ensures Update(c, s + [b]) == Step(Update(c, s), b)
  {
    assert (s + [b])[..|s|] == s;
  }

  /** The register can be fed in pieces: feeding `s` then `t` is feeding `s + t`. */
  lemma {:induction false} UpdateAppend(c: bv32, s: seq<bv8>, t: seq<bv8>)
    ensures Update(c, s + t) == Update(Update(c, s), t)
    decreases |t|
  {
    if t == [] {
      assert s + t == s;
    } else {
      var t' := t[..|t| - 1];
      var b := t[|t| - 1];
      assert t == t' + [b];
      assert s + t == (s + t') + [b];
      UpdateAppend(c, s, t');
      UpdateSnoc(c, s + t', b);
      UpdateSnoc(Update(c, s), t', b);
    }
  }

  /** The CRC of a file is the CRC of its first min(length, CRC_SIZE) bytes, whatever follows. */
  lemma CrcOfPrefix(data: seq<bv8>)
    ensures Crc(data) == Crc(data[..Min(|data|, CRC_SIZE)])
  {
    var p := data[..Min(|data|, CRC_SIZE)];
    assert p[..Min(|p|, CRC_SIZE)] == p;
  }

  /** Bytes past CRC_SIZE do not change the CRC. */
  lemma CrcIgnoresTail(data: seq<bv8>, tail: seq<bv8>)
    requires |data| >= CRC_SIZE
    ensures Crc(data + tail) == Crc(data)
  {
    assert (data + tail)[..CRC_SIZE] == data[..CRC_SIZE];
  }

  /** The empty file has CRC 0. */
  lemma CrcOfEmpty()
    ensures Crc([]) == 0
  {
  }

  /** The table entries the check value below goes through. */
  lemma CheckEntries()
    ensures TableEntry(0xCE) == 0x6104_3093
    ensures TableEntry(0xAC) == 0xC423_CD6A
    ensures TableEntry(0x0C) == 0x350C_9B64
    ensures TableEntry(0xED) == 0xF464_A0AA
    ensures TableEntry(0x93) == 0x285E_1D47
    ensures TableEntry(0x8B) == 0x4247_2B8F
    ensures TableEntry(0xEF) == 0xFDE6_9BC4
    ensures TableEntry(0x35) == 0xC3F7_06FB
    ensures TableEntry(0x70) == 0xE0B4_1DE7
  {
    RoundsEight(0xCE00_0000);
    RoundsEight(0xAC00_0000);
    RoundsEight(0x0C00_0000);
    RoundsEight(0xED00_0000);
    RoundsEight(0x9300_0000);
    RoundsEight(0x8B00_0000);
    RoundsEight(0xEF00_0000);
    RoundsEight(0x3500_0000);
    RoundsEight(0x7000_0000);
  }

  /** The standard check value of CRC-32/BZIP2: the CRC of the nine bytes of "123456789" is 0xFC891918. */
  lemma CheckValue()
    ensures Crc([0x31, 0x32, 0x33, 0x34, 0x35, 0x36, 0x37, 0x38, 0x39]) == 0xFC89_1918
  {
    CheckEntries();
    var p: seq<bv8> := [];
    UpdateSnoc(INIT, p, 0x31);
    assert Step(0xFFFF_FFFF, 0x31) == 0x9EFB_CF93;
    p := p + [0x31];
    UpdateSnoc(INIT, p, 0x32);
    assert Step(0x9EFB_CF93, 0x32) == 0x3FEC_5E6A;
    p := p + [0x32];
    UpdateSnoc(INIT, p, 0x33);
    assert Step(0x3FEC_5E6A, 0x33) == 0xD952_F164;
    p := p + [0x33];
    UpdateSnoc(INIT, p, 0x34);
    assert Step(0xD952_F164, 0x34) == 0xA695_C4AA;
    p := p + [0x34];
    UpdateSnoc(INIT, p, 0x35);
    assert Step(0xA695_C4AA, 0x35) == 0xBD9A_B747;
    p := p + [0x35];
    UpdateSnoc(INIT, p, 0x36);
    assert Step(0xBD9A_B747, 0x36) == 0xD8F0_6C8F;
    p := p + [0x36];
    UpdateSnoc(INIT, p, 0x37);
    assert Step(0xD8F0_6C8F, 0x37) == 0x0D8A_14C4;
    p := p + [0x37];
    UpdateSnoc(INIT, p, 0x38);
    assert Step(0x0D8A_14C4, 0x38) == 0x49E3_C2FB;
    p := p + [0x38];
    UpdateSnoc(INIT, p, 0x39);
    assert Step(0x49E3_C2FB, 0x39) == 0x0376_E6E7;
    p := p + [0x39];
    assert p == [0x31, 0x32, 0x33, 0x34, 0x35, 0x36, 0x37, 0x38, 0x39];
    assert p[..Min(|p|, CRC_SIZE)] == p;
  }

  /** Eight rounds of the generator applied to `seed`: the inner loop of initialise_crc_table. */
  method ComputeEntry(seed: bv32) returns (crc: bv32)
    ensures crc == Rounds(seed, 8)
  {
    crc := seed;
    var j := 0;
    while j < 8
      invariant 0 <= j <= 8
      invariant crc == Rounds(seed, j)
    {
      crc := Round(crc);
      j := j + 1;
    }
  }

  /**
   * One table-driven step as the source writes it, indexing the table with
   * `((crc >> 24) ^ b) & 0xFF`.
   */
  method StepByTable(table: array<bv32>, crc: bv32, b: bv8) returns (r: bv32)
    requires IsCrcTable(table)
    ensures r == Step(crc, b)
  {
    var index := (((crc >> 24) ^ (b as bv32)) & 0xFF) as bv8;
    r := (crc << 8) ^ table[index as int];
  }

  /**
   * initialise_crc_table: fills the 256-entry table, entry `i` being `i << 24`
   * put through eight shift/conditional-XOR rounds.
   */
  method InitialiseCrcTable(table: array<bv32>)
    requires table.Length == 256
    modifies table
    ensures IsCrcTable(table)
  {
    var i := 0;
    while i < 256
      invariant 0 <= i <= 256
      invariant forall k | 0 <= k < i :: table[k] == TableEntry(k as bv8)
    {
      var b := i as bv8;
      table[i] := ComputeEntry((b as bv32) << 24);
      i := i + 1;
    }
  }
}
