/**
 crc32: the table-driven checksum, and what it computes.

 The reference is bit-serial division: the register is shifted right once per message bit,
 and the reflected polynomial 0xEDB88320 is added when the bit that leaves, together with
 the message bit, is one (section 8 of RFC 1952). Addition of polynomials over GF(2) is Xor.
 */
module Crc {

  // The table of the source, in rows of sixteen and quarters of four rows.
  const ROW_0: seq<bv32> := [
    0x00000000, 0x77073096, 0xee0e612c, 0x990951ba,
    0x076dc419, 0x706af48f, 0xe963a535, 0x9e6495a3,
    0x0edb8832, 0x79dcb8a4, 0xe0d5e91e, 0x97d2d988,
    0x09b64c2b, 0x7eb17cbd, 0xe7b82d07, 0x90bf1d91]
  const ROW_1: seq<bv32> := [
    0x1db71064, 0x6ab020f2, 0xf3b97148, 0x84be41de,
    0x1adad47d, 0x6ddde4eb, 0xf4d4b551, 0x83d385c7,
    0x136c9856, 0x646ba8c0, 0xfd62f97a, 0x8a65c9ec,
    0x14015c4f, 0x63066cd9, 0xfa0f3d63, 0x8d080df5]
  const ROW_2: seq<bv32> := [
    0x3b6e20c8, 0x4c69105e, 0xd56041e4, 0xa2677172,
    0x3c03e4d1, 0x4b04d447, 0xd20d85fd, 0xa50ab56b,
    0x35b5a8fa, 0x42b2986c, 0xdbbbc9d6, 0xacbcf940,
    0x32d86ce3, 0x45df5c75, 0xdcd60dcf, 0xabd13d59]
  const ROW_3: seq<bv32> := [
    0x26d930ac, 0x51de003a, 0xc8d75180, 0xbfd06116,
    0x21b4f4b5, 0x56b3c423, 0xcfba9599, 0xb8bda50f,
    0x2802b89e, 0x5f058808, 0xc60cd9b2, 0xb10be924,
    0x2f6f7c87, 0x58684c11, 0xc1611dab, 0xb6662d3d]
  const ROW_4: seq<bv32> := [
    0x76dc4190, 0x01db7106, 0x98d220bc, 0xefd5102a,
    0x71b18589, 0x06b6b51f, 0x9fbfe4a5, 0xe8b8d433,
    0x7807c9a2, 0x0f00f934, 0x9609a88e, 0xe10e9818,
    0x7f6a0dbb, 0x086d3d2d, 0x91646c97, 0xe6635c01]
  const ROW_5: seq<bv32> := [
    0x6b6b51f4, 0x1c6c6162, 0x856530d8, 0xf262004e,
    0x6c0695ed, 0x1b01a57b, 0x8208f4c1, 0xf50fc457,
    0x65b0d9c6, 0x12b7e950, 0x8bbeb8ea, 0xfcb9887c,
    0x62dd1ddf, 0x15da2d49, 0x8cd37cf3, 0xfbd44c65]
  const ROW_6: seq<bv32> := [
    0x4db26158, 0x3ab551ce, 0xa3bc0074, 0xd4bb30e2,
    0x4adfa541, 0x3dd895d7, 0xa4d1c46d, 0xd3d6f4fb,
    0x4369e96a, 0x346ed9fc, 0xad678846, 0xda60b8d0,
    0x44042d73, 0x33031de5, 0xaa0a4c5f, 0xdd0d7cc9]
  const ROW_7: seq<bv32> := [
    0x5005713c, 0x270241aa, 0xbe0b1010, 0xc90c2086,
    0x5768b525, 0x206f85b3, 0xb966d409, 0xce61e49f,
    0x5edef90e, 0x29d9c998, 0xb0d09822, 0xc7d7a8b4,
    0x59b33d17, 0x2eb40d81, 0xb7bd5c3b, 0xc0ba6cad]
  const ROW_8: seq<bv32> := [
    0xedb88320, 0x9abfb3b6, 0x03b6e20c, 0x74b1d29a,
    0xead54739, 0x9dd277af, 0x04db2615, 0x73dc1683,
    0xe3630b12, 0x94643b84, 0x0d6d6a3e, 0x7a6a5aa8,
    0xe40ecf0b, 0x9309ff9d, 0x0a00ae27, 0x7d079eb1]
  const ROW_9: seq<bv32> := [
    0xf00f9344, 0x8708a3d2, 0x1e01f268, 0x6906c2fe,
    0xf762575d, 0x806567cb, 0x196c3671, 0x6e6b06e7,
    0xfed41b76, 0x89d32be0, 0x10da7a5a, 0x67dd4acc,
    0xf9b9df6f, 0x8ebeeff9, 0x17b7be43, 0x60b08ed5]
  const ROW_A: seq<bv32> := [
    0xd6d6a3e8, 0xa1d1937e, 0x38d8c2c4, 0x4fdff252,
    0xd1bb67f1, 0xa6bc5767, 0x3fb506dd, 0x48b2364b,
    0xd80d2bda, 0xaf0a1b4c, 0x36034af6, 0x41047a60,
    0xdf60efc3, 0xa867df55, 0x316e8eef, 0x4669be79]
  const ROW_B: seq<bv32> := [
    0xcb61b38c, 0xbc66831a, 0x256fd2a0, 0x5268e236,
    0xcc0c7795, 0xbb0b4703, 0x220216b9, 0x5505262f,
    0xc5ba3bbe, 0xb2bd0b28, 0x2bb45a92, 0x5cb36a04,
    0xc2d7ffa7, 0xb5d0cf31, 0x2cd99e8b, 0x5bdeae1d]
  const ROW_C: seq<bv32> := [
    0x9b64c2b0, 0xec63f226, 0x756aa39c, 0x026d930a,
    0x9c0906a9, 0xeb0e363f, 0x72076785, 0x05005713,
    0x95bf4a82, 0xe2b87a14, 0x7bb12bae, 0x0cb61b38,
    0x92d28e9b, 0xe5d5be0d, 0x7cdcefb7, 0x0bdbdf21]
  const ROW_D: seq<bv32> := [
    0x86d3d2d4, 0xf1d4e242, 0x68ddb3f8, 0x1fda836e,
    0x81be16cd, 0xf6b9265b, 0x6fb077e1, 0x18b74777,
    0x88085ae6, 0xff0f6a70, 0x66063bca, 0x11010b5c,
    0x8f659eff, 0xf862ae69, 0x616bffd3, 0x166ccf45]
  const ROW_E: seq<bv32> := [
    0xa00ae278, 0xd70dd2ee, 0x4e048354, 0x3903b3c2,
    0xa7672661, 0xd06016f7, 0x4969474d, 0x3e6e77db,
    0xaed16a4a, 0xd9d65adc, 0x40df0b66, 0x37d83bf0,
    0xa9bcae53, 0xdebb9ec5, 0x47b2cf7f, 0x30b5ffe9]
  const ROW_F: seq<bv32> := [
    0xbdbdf21c, 0xcabac28a, 0x53b39330, 0x24b4a3a6,
    0xbad03605, 0xcdd70693, 0x54de5729, 0x23d967bf,
    0xb3667a2e, 0xc4614ab8, 0x5d681b02, 0x2a6f2b94,
    0xb40bbe37, 0xc30c8ea1, 0x5a05df1b, 0x2d02ef8d]

  const QUARTER_0: seq<bv32> := ROW_0 + ROW_1 + ROW_2 + ROW_3
  const QUARTER_1: seq<bv32> := ROW_4 + ROW_5 + ROW_6 + ROW_7
  const QUARTER_2: seq<bv32> := ROW_8 + ROW_9 + ROW_A + ROW_B
  const QUARTER_3: seq<bv32> := ROW_C + ROW_D + ROW_E + ROW_F
  const TABLE: seq<bv32> := QUARTER_0 + QUARTER_1 + QUARTER_2 + QUARTER_3

  const ONES: bv32 := 0xFFFF_FFFF

  /** Addition of polynomials over GF(2). */
  function Xor(c: bv32, d: bv32): bv32 {
    c ^ d
  }

  function Half(c: bv32): bv32 {
    c >> 1
  }

  function OfBit(m: bool): bv32 {
    if m then 1 else 0
  }

  /** One step of the division: the register loses its last bit, the highest power. */
  function Shift(c: bv32): bv32 {
    if c & 1 == 1 then (c >> 1) ^ 0xEDB88320 else c >> 1
  }

  /** The register after the message bits, fed one at a time. */
  function Divide(c: bv32, bits: seq<bool>): bv32
    decreases |bits|
  {
    if bits == [] then c else Divide(Shift(Xor(c, OfBit(bits[0]))), bits[1..])
  }

  /** The n low bits of b, lowest first: the order in which a byte's bits are fed. */
  function LowBits(b: bv32, n: nat): (r: seq<bool>)
    ensures |r| == n
    decreases n
  {
    if n == 0 then [] else [b & 1 == 1] + LowBits(Half(b), n - 1)
  }

  function Bits(s: seq<bv8>): (r: seq<bool>)
    ensures |r| == 8 * |s|
  {
    if s == [] then [] else LowBits(s[0] as bv32, 8) + Bits(s[1..])
  }

  /** The checksum of s, continued from the checksum c of what came before. */
  function Checksum(c: bv32, s: seq<bv8>): bv32 {
    Xor(Divide(Xor(c, ONES), Bits(s)), ONES)
  }

  // ---- the table ----

  function Byte8(c: bv32): bv32 {
    Shift(Shift(Shift(Shift(Shift(Shift(Shift(Shift(c))))))))
  }

  lemma OneOf(x: bv8, lo: bv8)
    requires lo <= 0xF0 && lo <= x <= lo + 15
    ensures x == lo || x == lo + 1 || x == lo + 2 || x == lo + 3 || x == lo + 4 || x == lo + 5
         || x == lo + 6 || x == lo + 7 || x == lo + 8 || x == lo + 9 || x == lo + 10 || x == lo + 11
         || x == lo + 12 || x == lo + 13 || x == lo + 14 || x == lo + 15
  {
  }

  lemma Concat4(a: seq<bv32>, b: seq<bv32>, c: seq<bv32>, d: seq<bv32>, n: nat, i: nat)
    requires |a| == |b| == |c| == |d| == n && i < n
    ensures |a + b + c + d| == 4 * n
    ensures (a + b + c + d)[i] == a[i]
    ensures (a + b + c + d)[n + i] == b[i]
    ensures (a + b + c + d)[2 * n + i] == c[i]
    ensures (a + b + c + d)[3 * n + i] == d[i]
  {
  }

  lemma Row0(x: bv8)
    requires 0x00 <= x < 0x10
    ensures 0x00 <= x as nat < 0x00 + 16 && ROW_0[x as nat - 0x00] == Byte8(x as bv32)
  {
    OneOf(x, 0x00);
  }

  lemma Row1(x: bv8)
    requires 0x10 <= x < 0x20
    ensures 0x10 <= x as nat < 0x10 + 16 && ROW_1[x as nat - 0x10] == Byte8(x as bv32)
  {
    OneOf(x, 0x10);
  }

  lemma Row2(x: bv8)
    requires 0x20 <= x < 0x30
    ensures 0x20 <= x as nat < 0x20 + 16 && ROW_2[x as nat - 0x20] == Byte8(x as bv32)
  {
    OneOf(x, 0x20);
  }

  lemma Row3(x: bv8)
    requires 0x30 <= x < 0x40
    ensures 0x30 <= x as nat < 0x30 + 16 && ROW_3[x as nat - 0x30] == Byte8(x as bv32)
  {
    OneOf(x, 0x30);
  }

  lemma Row4(x: bv8)
    requires 0x40 <= x < 0x50
    ensures 0x40 <= x as nat < 0x40 + 16 && ROW_4[x as nat - 0x40] == Byte8(x as bv32)
  {
    OneOf(x, 0x40);
  }

  lemma Row5(x: bv8)
    requires 0x50 <= x < 0x60
    ensures 0x50 <= x as nat < 0x50 + 16 && ROW_5[x as nat - 0x50] == Byte8(x as bv32)
  {
    OneOf(x, 0x50);
  }

  lemma Row6(x: bv8)
    requires 0x60 <= x < 0x70
    ensures 0x60 <= x as nat < 0x60 + 16 && ROW_6[x as nat - 0x60] == Byte8(x as bv32)
  {
    OneOf(x, 0x60);
  }

  lemma Row7(x: bv8)
    requires 0x70 <= x < 0x80
    ensures 0x70 <= x as nat < 0x70 + 16 && ROW_7[x as nat - 0x70] == Byte8(x as bv32)
  {
    OneOf(x, 0x70);
  }

  lemma Row8(x: bv8)
    requires 0x80 <= x < 0x90
    ensures 0x80 <= x as nat < 0x80 + 16 && ROW_8[x as nat - 0x80] == Byte8(x as bv32)
  {
    OneOf(x, 0x80);
  }

  lemma Row9(x: bv8)
    requires 0x90 <= x < 0xA0
    ensures 0x90 <= x as nat < 0x90 + 16 && ROW_9[x as nat - 0x90] == Byte8(x as bv32)
  {
    OneOf(x, 0x90);
  }

  lemma RowA(x: bv8)
    requires 0xA0 <= x < 0xB0
    ensures 0xA0 <= x as nat < 0xA0 + 16 && ROW_A[x as nat - 0xA0] == Byte8(x as bv32)
  {
    OneOf(x, 0xA0);
  }

  lemma RowB(x: bv8)
    requires 0xB0 <= x < 0xC0
    ensures 0xB0 <= x as nat < 0xB0 + 16 && ROW_B[x as nat - 0xB0] == Byte8(x as bv32)
  {
    OneOf(x, 0xB0);
  }

  lemma RowC(x: bv8)
    requires 0xC0 <= x < 0xD0
    ensures 0xC0 <= x as nat < 0xC0 + 16 && ROW_C[x as nat - 0xC0] == Byte8(x as bv32)
  {
    OneOf(x, 0xC0);
  }

  lemma RowD(x: bv8)
    requires 0xD0 <= x < 0xE0
    ensures 0xD0 <= x as nat < 0xD0 + 16 && ROW_D[x as nat - 0xD0] == Byte8(x as bv32)
  {
    OneOf(x, 0xD0);
  }

  lemma RowE(x: bv8)
    requires 0xE0 <= x < 0xF0
    ensures 0xE0 <= x as nat < 0xE0 + 16 && ROW_E[x as nat - 0xE0] == Byte8(x as bv32)
  {
    OneOf(x, 0xE0);
  }

  lemma RowF(x: bv8)
    requires 0xF0 <= x
    ensures 0xF0 <= x as nat < 0xF0 + 16 && ROW_F[x as nat - 0xF0] == Byte8(x as bv32)
  {
    OneOf(x, 0xF0);
  }

  lemma Quarter0(x: bv8)
    requires 0x00 <= x < 0x40
    ensures |QUARTER_0| == 64 && 0x00 <= x as nat < 0x00 + 64
    ensures QUARTER_0[x as nat - 0x00] == Byte8(x as bv32)
  {
    hide Byte8;
    if x < 0x10 {
      Row0(x);
      Concat4(ROW_0, ROW_1, ROW_2, ROW_3, 16, x as nat - 0x00);
    } else if x < 0x20 {
      Row1(x);
      Concat4(ROW_0, ROW_1, ROW_2, ROW_3, 16, x as nat - 0x10);
    } else if x < 0x30 {
      Row2(x);
      Concat4(ROW_0, ROW_1, ROW_2, ROW_3, 16, x as nat - 0x20);
    } else {
      Row3(x);
      Concat4(ROW_0, ROW_1, ROW_2, ROW_3, 16, x as nat - 0x30);
    }
  }

  lemma Quarter1(x: bv8)
    requires 0x40 <= x < 0x80
    ensures |QUARTER_1| == 64 && 0x40 <= x as nat < 0x40 + 64
    ensures QUARTER_1[x as nat - 0x40] == Byte8(x as bv32)
  {
    hide Byte8;
    if x < 0x50 {
      Row4(x);
      Concat4(ROW_4, ROW_5, ROW_6, ROW_7, 16, x as nat - 0x40);
    } else if x < 0x60 {
      Row5(x);
      Concat4(ROW_4, ROW_5, ROW_6, ROW_7, 16, x as nat - 0x50);
    } else if x < 0x70 {
      Row6(x);
      Concat4(ROW_4, ROW_5, ROW_6, ROW_7, 16, x as nat - 0x60);
    } else {
      Row7(x);
      Concat4(ROW_4, ROW_5, ROW_6, ROW_7, 16, x as nat - 0x70);
    }
  }

  lemma Quarter2(x: bv8)
    requires 0x80 <= x < 0xC0
    ensures |QUARTER_2| == 64 && 0x80 <= x as nat < 0x80 + 64
    ensures QUARTER_2[x as nat - 0x80] == Byte8(x as bv32)
  {
    hide Byte8;
    if x < 0x90 {
      Row8(x);
      Concat4(ROW_8, ROW_9, ROW_A, ROW_B, 16, x as nat - 0x80);
    } else if x < 0xA0 {
      Row9(x);
      Concat4(ROW_8, ROW_9, ROW_A, ROW_B, 16, x as nat - 0x90);
    } else if x < 0xB0 {
      RowA(x);
      Concat4(ROW_8, ROW_9, ROW_A, ROW_B, 16, x as nat - 0xA0);
    } else {
      RowB(x);
      Concat4(ROW_8, ROW_9, ROW_A, ROW_B, 16, x as nat - 0xB0);
    }
  }

  lemma Quarter3(x: bv8)
    requires 0xC0 <= x
    ensures |QUARTER_3| == 64 && 0xC0 <= x as nat < 0xC0 + 64
    ensures QUARTER_3[x as nat - 0xC0] == Byte8(x as bv32)
  {
    hide Byte8;
    if x < 0xD0 {
      RowC(x);
      Concat4(ROW_C, ROW_D, ROW_E, ROW_F, 16, x as nat - 0xC0);
    } else if x < 0xE0 {
      RowD(x);
      Concat4(ROW_C, ROW_D, ROW_E, ROW_F, 16, x as nat - 0xD0);
    } else if x < 0xF0 {
      RowE(x);
      Concat4(ROW_C, ROW_D, ROW_E, ROW_F, 16, x as nat - 0xE0);
    } else {
      RowF(x);
      Concat4(ROW_C, ROW_D, ROW_E, ROW_F, 16, x as nat - 0xF0);
    }
  }

  /** The table in quarters. */
  lemma TableSplits(i: nat)
    requires i < 64
    ensures |TABLE| == 256 && |QUARTER_0| == |QUARTER_1| == |QUARTER_2| == |QUARTER_3| == 64
    ensures TABLE[i] == QUARTER_0[i] && TABLE[64 + i] == QUARTER_1[i]
    ensures TABLE[128 + i] == QUARTER_2[i] && TABLE[192 + i] == QUARTER_3[i]
  {
    QuartersAre();
    Concat4(QUARTER_0, QUARTER_1, QUARTER_2, QUARTER_3, 64, i);
  }

  lemma QuartersAre()
    ensures |QUARTER_0| == |QUARTER_1| == |QUARTER_2| == |QUARTER_3| == 64
  {
  }

  lemma TableQuarter0(x: bv8)
    requires x < 0x40
    ensures x as nat < |TABLE| && TABLE[x as nat] == Byte8(x as bv32)
  {
    hide *;
    Quarter0(x);
    TableSplits(x as nat - 0x00);
  }

  lemma TableQuarter1(x: bv8)
    requires 0x40 <= x < 0x80
    ensures x as nat < |TABLE| && TABLE[x as nat] == Byte8(x as bv32)
  {
    hide *;
    Quarter1(x);
    TableSplits(x as nat - 0x40);
  }

  lemma TableQuarter2(x: bv8)
    requires 0x80 <= x < 0xC0
    ensures x as nat < |TABLE| && TABLE[x as nat] == Byte8(x as bv32)
  {
    hide *;
    Quarter2(x);
    TableSplits(x as nat - 0x80);
  }

  lemma TableQuarter3(x: bv8)
    requires 0xC0 <= x
    ensures x as nat < |TABLE| && TABLE[x as nat] == Byte8(x as bv32)
  {
    hide *;
    Quarter3(x);
    TableSplits(x as nat - 0xC0);
  }

  /** Entry i is the register i after eight steps of the division, for all 256 of them. */
  lemma TableRight(i: bv8)
    ensures i as nat < |TABLE| && TABLE[i as nat] == Byte8(i as bv32)
  {
    if i < 0x40 {
      TableQuarter0(i);
    } else if i < 0x80 {
      TableQuarter1(i);
    } else if i < 0xC0 {
      TableQuarter2(i);
    } else {
      TableQuarter3(i);
    }
  }

  function Low8(c: bv32): bv32 {
    c & 0xFF
  }

  function High24(c: bv32): bv32 {
    c & 0xFFFF_FF00
  }

  function Rest(c: bv32): bv32 {
    c >> 8
  }

  lemma LowByte(c: bv32)
    ensures Low8(c) as nat == (Low8(c) as bv8) as nat < 256
    ensures (Low8(c) as bv8) as bv32 == Low8(c)
  {
  }

  lemma Lookup(c: bv32)
    ensures Low8(c) as nat < |TABLE| && TABLE[Low8(c) as nat] == Byte8(Low8(c))
  {
    hide Low8, Byte8;
    LowByte(c);
    TableRight(Low8(c) as bv8);
  }

  // ---- the division is linear ----

  lemma XorAssoc(a: bv32, b: bv32, c: bv32)
    ensures Xor(Xor(a, b), c) == Xor(a, Xor(b, c))
  {
  }

  lemma XorSwap(a: bv32, b: bv32)
    ensures Xor(a, b) == Xor(b, a)
  {
  }

  lemma Parts(c: bv32, d: bv32)
    ensures (c ^ d) & 1 == (c & 1) ^ (d & 1)
    ensures (c ^ d) >> 1 == (c >> 1) ^ (d >> 1)
  {
  }

  lemma ShiftAdds(c: bv32, d: bv32)
    ensures Shift(c ^ d) == Shift(c) ^ Shift(d)
  {
    Parts(c, d);
    if c & 1 == 1 {
    }
    if d & 1 == 1 {
    }
  }

  lemma ShiftLinear(c: bv32, d: bv32)
    ensures Shift(Xor(c, d)) == Xor(Shift(c), Shift(d))
  {
    hide Shift;
    ShiftAdds(c, d);
  }

  lemma Byte8Linear(c: bv32, d: bv32)
    ensures Byte8(Xor(c, d)) == Xor(Byte8(c), Byte8(d))
  {
    hide Shift, Xor;
    var c1, d1 := Shift(c), Shift(d);
    var c2, d2 := Shift(c1), Shift(d1);
    var c3, d3 := Shift(c2), Shift(d2);
    var c4, d4 := Shift(c3), Shift(d3);
    var c5, d5 := Shift(c4), Shift(d4);
    var c6, d6 := Shift(c5), Shift(d5);
    var c7, d7 := Shift(c6), Shift(d6);
    ShiftLinear(c, d);
    ShiftLinear(c1, d1);
    ShiftLinear(c2, d2);
    ShiftLinear(c3, d3);
    ShiftLinear(c4, d4);
    ShiftLinear(c5, d5);
    ShiftLinear(c6, d6);
    ShiftLinear(c7, d7);
  }

  // ---- eight steps are one byte ----

  function Shifts(c: bv32, n: nat): bv32
    decreases n
  {
    if n == 0 then c else Shifts(Shift(c), n - 1)
  }

  function Halves(b: bv32, n: nat): bv32
    decreases n
  {
    if n == 0 then b else Halves(Half(b), n - 1)
  }

  lemma OneBitAway(c: bv32, b: bv32)
    ensures Xor(c, b) == Xor(Xor(c, OfBit(b & 1 == 1)), b & 0xFFFF_FFFE)
  {
  }

  lemma EvenShift(b: bv32)
    ensures Shift(b & 0xFFFF_FFFE) == Half(b)
  {
  }

  lemma FeedOne(c: bv32, b: bv32)
    ensures Shift(Xor(c, b)) == Xor(Shift(Xor(c, OfBit(b & 1 == 1))), Half(b))
  {
    OneBitAway(c, b);
    EvenShift(b);
    FeedLinear(Xor(c, OfBit(b & 1 == 1)), b & 0xFFFF_FFFE, b);
  }

  lemma FeedLinear(c: bv32, even: bv32, b: bv32)
    requires Shift(even) == Half(b)
    ensures Shift(Xor(c, even)) == Xor(Shift(c), Half(b))
  {
    hide Shift, Xor, Half;
    ShiftLinear(c, even);
  }

  /** Adding n message bits first and then shifting n times is feeding them one at a time. */
  lemma {:induction false} FeedAll(c: bv32, b: bv32, n: nat)
    ensures Shifts(Xor(c, b), n) == Xor(Divide(c, LowBits(b, n)), Halves(b, n))
    decreases n
  {
    hide Shift, Xor, Half, OfBit;
    if n == 0 {
    } else {
      FeedOne(c, b);
      FeedAll(Shift(Xor(c, OfBit(b & 1 == 1))), Half(b), n - 1);
    }
  }

  lemma NothingLeft(b: bv8)
    ensures Halves(b as bv32, 8) == 0
  {
    var h := b as bv32;
    assert Halves(h, 8) == Halves(h >> 4, 4);
  }

  lemma EightShifts(c: bv32)
    ensures Shifts(c, 8) == Byte8(c)
  {
    hide Shift;
  }

  lemma XorZero(c: bv32)
    ensures Xor(c, 0) == c
  {
  }

  lemma ByteDivides(c: bv32, b: bv8)
    ensures Byte8(Xor(c, b as bv32)) == Divide(c, LowBits(b as bv32, 8))
  {
    hide Shift, Xor, Byte8;
    FeedAll(c, b as bv32, 8);
    EightShifts(Xor(c, b as bv32));
    NothingLeft(b);
    XorZero(Divide(c, LowBits(b as bv32, 8)));
  }

  lemma LowAndHigh(c: bv32)
    ensures c == Xor(Low8(c), High24(c))
  {
  }

  lemma HighByte(c: bv32)
    ensures Byte8(High24(c)) == Rest(c)
  {
  }

  lemma RestOf(c: bv32, b: bv8)
    ensures Rest(Xor(c, b as bv32)) == Rest(c)
  {
  }

  /** What the loop body makes of the register and the next byte. */
  function Turn(c: bv32, b: bv8): bv32 {
    Lookup(Xor(c, b as bv32));
    Xor(TABLE[Low8(Xor(c, b as bv32)) as nat], Rest(c))
  }

  /** One turn of the loop feeds the byte's eight bits. */
  lemma TurnDivides(c: bv32, b: bv8)
    ensures Turn(c, b) == Divide(c, LowBits(b as bv32, 8))
  {
    hide Xor, Byte8, Low8, High24, Rest, Divide;
    var x := Xor(c, b as bv32);
    Lookup(x);
    RestOf(c, b);
    HighByte(x);
    LowAndHigh(x);
    Byte8Linear(Low8(x), High24(x));
    ByteDivides(c, b);
  }

  lemma {:induction false} DivideAppend(c: bv32, m: seq<bool>, n: seq<bool>)
    ensures Divide(c, m + n) == Divide(Divide(c, m), n)
    decreases |m|
  {
    hide Shift, Xor;
    if m == [] {
      assert m + n == n;
    } else {
      assert (m + n)[1..] == m[1..] + n;
      DivideAppend(Shift(Xor(c, OfBit(m[0]))), m[1..], n);
    }
  }

  lemma {:induction false} BitsAppend(a: seq<bv8>, b: seq<bv8>)
    ensures Bits(a + b) == Bits(a) + Bits(b)
  {
    hide LowBits;
    if a == [] {
      assert a + b == b;
    } else {
      assert (a + b)[1..] == a[1..] + b;
      BitsAppend(a[1..], b);
    }
  }

  lemma OneMore(c: bv32, s: seq<bv8>, k: nat)
    requires k < |s|
    ensures Divide(c, Bits(s[..k + 1])) == Divide(Divide(c, Bits(s[..k])), LowBits(s[k] as bv32, 8))
  {
    hide LowBits, Divide;
    assert s[..k + 1] == s[..k] + [s[k]];
    BitsAppend(s[..k], [s[k]]);
    assert Bits([s[k]]) == LowBits(s[k] as bv32, 8) + [];
    assert Bits([s[k]]) == LowBits(s[k] as bv32, 8);
    DivideAppend(c, Bits(s[..k]), LowBits(s[k] as bv32, 8));
  }

  lemma NoBits(c: bv32)
    ensures Divide(c, Bits([])) == c
  {
  }

  /** crc32 on the first size bytes of buf */
  method Crc32(start: bv32, buf: array<bv8>, size: nat) returns (crc: bv32)
    requires size <= buf.Length
    ensures crc == Checksum(start, buf[..size])
  {
    hide Xor, Divide, Bits, LowBits, Low8, Rest, Byte8;
    ghost var s := buf[..size];
    var p := 0;
    crc := Xor(start, ONES);
    NoBits(crc);
    assert s[..p] == [];
    while p < size
      invariant p <= size
      invariant crc == Divide(Xor(start, ONES), Bits(s[..p]))
    {
      TurnDivides(crc, s[p]);
      OneMore(Xor(start, ONES), s, p);
      Lookup(Xor(crc, s[p] as bv32));
      crc := Xor(TABLE[Low8(Xor(crc, buf[p] as bv32)) as nat], Rest(crc));
      p := p + 1;
    }
    assert s[..p] == s;
    crc := Xor(crc, ONES);
  }

  lemma TwiceOnes(c: bv32)
    ensures Xor(Xor(c, ONES), ONES) == c
  {
  }

  /** The checksum of a stream may be taken piece by piece. */
  lemma Composes(c: bv32, a: seq<bv8>, b: seq<bv8>)
    ensures Checksum(Checksum(c, a), b) == Checksum(c, a + b)
  {
    hide Xor, Divide, Bits;
    TwiceOnes(Divide(Xor(c, ONES), Bits(a)));
    BitsAppend(a, b);
    DivideAppend(Xor(c, ONES), Bits(a), Bits(b));
  }

  /** One byte more, in the register. */
  lemma FedByte(s: seq<bv8>, k: nat, c: bv32, d: bv32)
    requires k < |s| && Divide(Xor(0, ONES), Bits(s[..k])) == c && Byte8(Xor(c, s[k] as bv32)) == d
    ensures Divide(Xor(0, ONES), Bits(s[..k + 1])) == d
  {
    hide Divide, Bits, LowBits, Byte8, Xor;
    OneMore(Xor(0, ONES), s, k);
    ByteDivides(c, s[k]);
  }

  /** The digits 1 to 9 in ASCII have the check value by which this checksum is known. */
  lemma CheckValue()
    ensures Checksum(0, [0x31, 0x32, 0x33, 0x34, 0x35, 0x36, 0x37, 0x38, 0x39]) == 0xCBF4_3926
  {
    hide Divide, Bits, LowBits;
    var s: seq<bv8> := [0x31, 0x32, 0x33, 0x34, 0x35, 0x36, 0x37, 0x38, 0x39];
    assert s[..0] == [];
    NoBits(0xFFFF_FFFF);
    FedByte(s, 0, 0xFFFF_FFFF, 0x7C23_1048);
    FedByte(s, 1, 0x7C23_1048, 0xB0AC_BB32);
    FedByte(s, 2, 0xB0AC_BB32, 0x77B7_9C2D);
    FedByte(s, 3, 0x77B7_9C2D, 0x641C_1F5C);
    FedByte(s, 4, 0x641C_1F5C, 0x340A_C5E3);
    FedByte(s, 5, 0x340A_C5E3, 0xF68D_2C9E);
    FedByte(s, 6, 0xF68D_2C9E, 0xAFFC_9660);
    FedByte(s, 7, 0xAFFC_9660, 0x651F_2550);
    FedByte(s, 8, 0x651F_2550, 0x340B_C6D9);
    assert s[..9] == s;
  }

  // ---- error detection ----

  /** Bit k or a higher one is set. */
  predicate Reaches(c: bv32, k: nat)
    decreases k
  {
    if k == 0 then c != 0 else Reaches(Half(c), k - 1)
  }

  predicate Top(c: bv32) {
    c & 0x8000_0000 != 0
  }

  lemma ReachesFour(c: bv32, k: nat)
    ensures Reaches(c, k + 4) == Reaches(Half(Half(Half(Half(c)))), k)
  {
    hide Half;
    var c1 := Half(c);
    var c2 := Half(c1);
    var c3 := Half(c2);
    assert Reaches(c, k + 4) == Reaches(c1, k + 3);
    assert Reaches(c1, k + 3) == Reaches(c2, k + 2);
    assert Reaches(c2, k + 2) == Reaches(c3, k + 1);
  }

  lemma EightHalves(c: bv32)
    ensures Half(Half(Half(Half(Half(Half(Half(Half(c)))))))) == Rest(c)
  {
  }

  lemma ReachesEight(c: bv32, k: nat)
    ensures Reaches(c, k + 8) == Reaches(Rest(c), k)
  {
    hide Half, Reaches, Rest;
    ReachesFour(c, k + 4);
    ReachesFour(Half(Half(Half(Half(c)))), k);
    EightHalves(c);
  }

  lemma TopShifted(c: bv32)
    requires Top(c)
    ensures Rest(Rest(Rest(c))) >= 0x80
  {
  }

  lemma ReachesSeven(c: bv32)
    requires c >= 0x80
    ensures Reaches(c, 7)
  {
  }

  lemma TopReaches31(c: bv32)
    requires Top(c)
    ensures Reaches(c, 31)
  {
    hide Reaches, Half, Top, Rest;
    ReachesEight(c, 23);
    ReachesEight(Rest(c), 15);
    ReachesEight(Rest(Rest(c)), 7);
    TopShifted(c);
    ReachesSeven(Rest(Rest(Rest(c))));
  }

  lemma {:induction false} ReachesLess(c: bv32, k: nat, j: nat)
    requires j <= k && Reaches(c, k)
    ensures Reaches(c, j)
    decreases k
  {
    if j > 0 {
      ReachesLess(Half(c), k - 1, j - 1);
    } else if k > 0 {
      ReachesLess(Half(c), k - 1, 0);
    }
  }

  lemma TopReaches(c: bv32, k: nat)
    requires Top(c) && k <= 31
    ensures Reaches(c, k)
  {
    hide Top, Reaches;
    TopReaches31(c);
    ReachesLess(c, 31, k);
  }

  lemma OddShift(c: bv32)
    requires c & 1 == 1
    ensures Top(Shift(c))
  {
  }

  lemma EvenOrOdd(c: bv32)
    ensures c & 1 == 1 || Shift(c) == Half(c)
  {
  }

  lemma HalfOf(c: bv32, m: bool)
    ensures Half(Xor(c, OfBit(m))) == Half(c)
  {
  }

  /** Fewer than k message bits cannot push a register that reaches bit k to zero. */
  lemma FedReaches(c: bv32, m: bool, k: nat)
    requires 0 < k <= 31 && Reaches(c, k)
    ensures Reaches(Shift(Xor(c, OfBit(m))), k - 1)
  {
    hide Shift, Xor, OfBit, Half, Top;
    var x := Xor(c, OfBit(m));
    HalfOf(c, m);
    EvenOrOdd(x);
    if x & 1 == 1 {
      OddShift(x);
      TopReaches(Shift(x), k - 1);
    }
  }

  lemma {:induction false} DivideReaches(c: bv32, bits: seq<bool>)
    requires |bits| <= 31 && Reaches(c, |bits|)
    ensures Divide(c, bits) != 0
    decreases |bits|
  {
    hide Shift, Xor, OfBit, Half;
    if bits == [] {
    } else {
      FedReaches(c, bits[0], |bits|);
      DivideReaches(Shift(Xor(c, OfBit(bits[0]))), bits[1..]);
    }
  }

  /** Where two messages of one length differ: their sum. */
  function Difference(m: seq<bool>, n: seq<bool>): (r: seq<bool>)
    requires |m| == |n|
    ensures |r| == |m|
  {
    if m == [] then [] else [m[0] != n[0]] + Difference(m[1..], n[1..])
  }

  lemma BitDifference(x: bool, y: bool)
    ensures Xor(OfBit(x), OfBit(y)) == OfBit(x != y)
  {
  }

  lemma Regroup(c: bv32, d: bv32, x: bv32, y: bv32)
    ensures Xor(Xor(c, x), Xor(d, y)) == Xor(Xor(c, d), Xor(x, y))
  {
    hide Xor;
    XorAssoc(c, x, Xor(d, y));
    XorAssoc(x, d, y);
    XorSwap(x, d);
    XorAssoc(d, x, y);
    XorAssoc(c, d, Xor(x, y));
  }

  /** Division is linear: the difference of the registers divides the difference of the messages. */
  lemma {:induction false} DivideLinear(c: bv32, d: bv32, m: seq<bool>, n: seq<bool>)
    requires |m| == |n|
    ensures Xor(Divide(c, m), Divide(d, n)) == Divide(Xor(c, d), Difference(m, n))
    decreases |m|
  {
    hide Shift, Xor, OfBit;
    if m == [] {
    } else {
      var c1, d1 := Xor(c, OfBit(m[0])), Xor(d, OfBit(n[0]));
      BitDifference(m[0], n[0]);
      Regroup(c, d, OfBit(m[0]), OfBit(n[0]));
      ShiftLinear(c1, d1);
      DivideLinear(Shift(c1), Shift(d1), m[1..], n[1..]);
    }
  }

  lemma XorZeroIff(c: bv32, d: bv32)
    ensures Xor(c, d) == 0 <==> c == d
  {
    hide Xor;
    XorSelf(d);
    XorAssoc(c, d, d);
    XorZero(c);
    XorZero(d);
    XorSwap(0, d);
  }

  lemma XorSelf(c: bv32)
    ensures Xor(c, c) == 0
  {
  }

  lemma FirstBit(c: bv32, x: bool, y: bool)
    requires x != y
    ensures Top(Xor(Shift(Xor(c, OfBit(x))), Shift(Xor(c, OfBit(y)))))
  {
    hide Shift, Top;
    ShiftLinear(Xor(c, OfBit(x)), Xor(c, OfBit(y)));
    OneApart(c, x, y);
    OddShift(1);
  }

  lemma OneApart(c: bv32, x: bool, y: bool)
    requires x != y
    ensures Xor(Xor(c, OfBit(x)), Xor(c, OfBit(y))) == 1
  {
  }

  /** At most 32 message bits that are not the same leave different registers. */
  lemma {:induction false} WindowTells(c: bv32, m: seq<bool>, n: seq<bool>)
    requires |m| == |n| <= 32 && m != n
    ensures Divide(c, m) != Divide(c, n)
    decreases |m|
  {
    hide Shift, Xor, OfBit, Top, Reaches;
    var c1, d1 := Shift(Xor(c, OfBit(m[0]))), Shift(Xor(c, OfBit(n[0])));
    if m[0] == n[0] {
      assert m == [m[0]] + m[1..] && n == [n[0]] + n[1..];
      WindowTells(c1, m[1..], n[1..]);
    } else {
      FirstBit(c, m[0], n[0]);
      TopReaches(Xor(c1, d1), |m| - 1);
      DivideReaches(Xor(c1, d1), Difference(m[1..], n[1..]));
      DivideLinear(c1, d1, m[1..], n[1..]);
      XorZeroIff(Divide(c1, m[1..]), Divide(d1, n[1..]));
    }
  }

  lemma HalfZero(c: bv32)
    requires Half(c) == 0
    ensures c & 1 == 1 || c == 0
  {
  }

  lemma NoTop()
    ensures !Top(0)
  {
  }

  lemma ShiftZero(c: bv32)
    requires Shift(c) == 0
    ensures c == 0
  {
    hide Shift, Half, Top;
    NoTop();
    EvenOrOdd(c);
    if c & 1 == 1 {
      OddShift(c);
    } else {
      HalfZero(c);
    }
  }

  lemma ShiftTells(c: bv32, d: bv32)
    requires c != d
    ensures Shift(c) != Shift(d)
  {
    hide Shift, Xor;
    ShiftLinear(c, d);
    XorZeroIff(c, d);
    XorZeroIff(Shift(c), Shift(d));
    if Shift(c) == Shift(d) {
      ShiftZero(Xor(c, d));
    }
  }

  lemma XorTells(c: bv32, d: bv32, x: bv32)
    requires c != d
    ensures Xor(c, x) != Xor(d, x)
  {
    hide Xor;
    XorSelf(x);
    XorAssoc(c, x, x);
    XorAssoc(d, x, x);
    XorZero(c);
    XorZero(d);
  }

  /** The same bits after different registers leave different registers. */
  lemma {:induction false} SuffixTells(c: bv32, d: bv32, m: seq<bool>)
    requires c != d
    ensures Divide(c, m) != Divide(d, m)
    decreases |m|
  {
    hide Shift, Xor, OfBit;
    if m == [] {
    } else {
      XorTells(c, d, OfBit(m[0]));
      ShiftTells(Xor(c, OfBit(m[0])), Xor(d, OfBit(m[0])));
      SuffixTells(Shift(Xor(c, OfBit(m[0]))), Shift(Xor(d, OfBit(m[0]))), m[1..]);
    }
  }

  /** Two messages that agree outside 32 consecutive bits, and are not the same. */
  ghost predicate BurstOf32(m: seq<bool>, n: seq<bool>) {
    |m| == |n| && m != n
    && exists from: nat :: from <= |m| && m[..from] == n[..from]
         && forall i :: from + 32 <= i < |m| ==> m[i] == n[i]
  }

  /** Every burst of at most 32 bits changes the checksum. */
  lemma BurstDetected(c: bv32, a: seq<bv8>, b: seq<bv8>)
    requires BurstOf32(Bits(a), Bits(b))
    ensures Checksum(c, a) != Checksum(c, b)
  {
    hide Divide, Xor, Bits;
    var m, n := Bits(a), Bits(b);
    var from: nat :| from <= |m| && m[..from] == n[..from] && forall i :: from + 32 <= i < |m| ==> m[i] == n[i];
    var upTo := if from + 32 <= |m| then from + 32 else |m|;
    var r := Divide(Xor(c, ONES), m[..from]);
    assert m == m[..from] + (m[from..upTo] + m[upTo..]);
    assert n == n[..from] + (n[from..upTo] + n[upTo..]);
    assert m[upTo..] == n[upTo..];
    DivideAppend(Xor(c, ONES), m[..from], m[from..upTo] + m[upTo..]);
    DivideAppend(Xor(c, ONES), n[..from], n[from..upTo] + n[upTo..]);
    DivideAppend(r, m[from..upTo], m[upTo..]);
    DivideAppend(r, n[from..upTo], n[upTo..]);
    WindowTells(r, m[from..upTo], n[from..upTo]);
    SuffixTells(Divide(r, m[from..upTo]), Divide(r, n[from..upTo]), m[upTo..]);
    XorTells(Divide(Xor(c, ONES), m), Divide(Xor(c, ONES), n), ONES);
  }

  lemma Byte8Tells(x: bv8, y: bv8)
    requires x != y
    ensures Byte8(Xor(0, x as bv32)) != Byte8(Xor(0, y as bv32))
  {
    hide Shift, Xor;
    Wider(x, y);
    var c, d := Xor(0, x as bv32), Xor(0, y as bv32);
    var c1, d1 := Shift(c), Shift(d);
    var c2, d2 := Shift(c1), Shift(d1);
    var c3, d3 := Shift(c2), Shift(d2);
    var c4, d4 := Shift(c3), Shift(d3);
    var c5, d5 := Shift(c4), Shift(d4);
    var c6, d6 := Shift(c5), Shift(d5);
    var c7, d7 := Shift(c6), Shift(d6);
    ShiftTells(c, d);
    ShiftTells(c1, d1);
    ShiftTells(c2, d2);
    ShiftTells(c3, d3);
    ShiftTells(c4, d4);
    ShiftTells(c5, d5);
    ShiftTells(c6, d6);
    ShiftTells(c7, d7);
  }

  lemma Wider(x: bv8, y: bv8)
    requires x != y
    ensures Xor(0, x as bv32) != Xor(0, y as bv32)
  {
  }

  lemma LowBitsTell(x: bv8, y: bv8)
    requires LowBits(x as bv32, 8) == LowBits(y as bv32, 8)
    ensures x == y
  {
    hide Byte8, Divide, LowBits, Xor;
    ByteDivides(0, x);
    ByteDivides(0, y);
    if x != y {
      Byte8Tells(x, y);
    }
  }

  lemma {:induction false} BitsTell(a: seq<bv8>, b: seq<bv8>)
    requires Bits(a) == Bits(b)
    ensures a == b
  {
    hide LowBits;
    assert |a| == |b|;
    if a == [] {
    } else {
      assert Bits(a)[..8] == LowBits(a[0] as bv32, 8) && Bits(b)[..8] == LowBits(b[0] as bv32, 8);
      assert Bits(a)[8..] == Bits(a[1..]) && Bits(b)[8..] == Bits(b[1..]);
      LowBitsTell(a[0], b[0]);
      BitsTell(a[1..], b[1..]);
    }
  }

  /** In particular, so does every change within four consecutive bytes. */
  lemma FourBytesDetected(c: bv32, before: seq<bv8>, x: seq<bv8>, y: seq<bv8>, after: seq<bv8>)
    requires |x| == |y| <= 4 && x != y
    ensures Checksum(c, before + x + after) != Checksum(c, before + y + after)
  {
    hide Checksum, Bits;
    var a, b := before + x + after, before + y + after;
    BitsAppend(before + x, after);
    BitsAppend(before + y, after);
    BitsAppend(before, x);
    BitsAppend(before, y);
    assert a[|before|..|before| + |x|] == x && b[|before|..|before| + |y|] == y;
    if Bits(a) == Bits(b) {
      BitsTell(a, b);
    }
    var from := 8 * |before|;
    assert Bits(a)[..from] == Bits(before) == Bits(b)[..from];
    BurstDetected(c, a, b);
  }
}
