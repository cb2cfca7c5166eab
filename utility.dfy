/**
 * Byte and checksum utilities of the Inter-Computer Framework:
 * the 32-bit shift-register checksum, its fold over a buffer, the
 * checker, the "invert" transform, the array element count helper
 * and the big-endian split of a 16-bit integer.
 */
module IcfUtility {
  import opened Wrappers

  /** Four bytes assembled little-endian, lowest address least significant. */
  function Word(b0: bv8, b1: bv8, b2: bv8, b3: bv8): bv32 {
    (b0 as bv32) | ((b1 as bv32) << 8) | ((b2 as bv32) << 16) | ((b3 as bv32) << 24)
  }

  /** A four-byte word read in host order; the host is fixed as little-endian. */
  function LeWord(buf: seq<bv8>, i: nat): bv32
    requires i + 4 <= |buf|
  {
    Word(buf[i], buf[i + 1], buf[i + 2], buf[i + 3])
  }

  lemma WordInjective(b0: bv8, b1: bv8, b2: bv8, b3: bv8, c0: bv8, c1: bv8, c2: bv8, c3: bv8)
    ensures Word(b0, b1, b2, b3) == Word(c0, c1, c2, c3)
        <==> b0 == c0 && b1 == c1 && b2 == c2 && b3 == c3
  {
  }

  /** Two words read from the same place agree exactly when their four bytes do. */
  lemma LeWordInjective(a: seq<bv8>, i: nat, b: seq<bv8>, j: nat)
    requires i + 4 <= |a| && j + 4 <= |b|
    ensures LeWord(a, i) == LeWord(b, j) <==> a[i..i + 4] == b[j..j + 4]
  {
    WordInjective(a[i], a[i + 1], a[i + 2], a[i + 3], b[j], b[j + 1], b[j + 2], b[j + 3]);
    if a[i] == b[j] && a[i + 1] == b[j + 1] && a[i + 2] == b[j + 2] && a[i + 3] == b[j + 3] {
      assert a[i..i + 4] == b[j..j + 4];
    }
    if a[i..i + 4] == b[j..j + 4] {
      assert a[i] == a[i..i + 4][0];
      assert a[i + 1] == a[i..i + 4][1];
      assert a[i + 2] == a[i..i + 4][2];
      assert a[i + 3] == a[i..i + 4][3];
    }
  }

  // ---------------------------------------------------------------------
  // Reference definition of the feedback bit

  /**
   * Parity of the feedback taps 0, 4, 8, 12, 17, 20, 23 and 28, as bit 0:
   * each tap is shifted down to bit 0 first and only then masked.
   */
  function TapParity(x: bv32): bv32 {
    (x ^ (x >> 4) ^ (x >> 8) ^ (x >> 12) ^ (x >> 17) ^ (x >> 20) ^ (x >> 23) ^ (x >> 28)) & 1
  }

  // ---------------------------------------------------------------------
  // crc32 and invert_crc32

  /** One checksum step on a word already read from the buffer. */
  function Crc32Word(crc: bv32, bufValue: bv32): bv32 {
    var crc30to00 := (crc >> 1) ^ (bufValue & 0x7fff_ffff);
    var crc31 := (crc & 0x1)
      ^ ((crc & (0x1 << 4)) >> 4)
      ^ ((crc & (0x1 << 8)) >> 8)
      ^ ((crc & (0x1 << 12)) >> 12)
      ^ ((crc & (0x1 << 17)) >> 17)
      ^ ((crc & (0x1 << 20)) >> 20)
      ^ ((crc & (0x1 << 23)) >> 23)
      ^ ((crc & (0x1 << 28)) >> 28)
      ^ ((bufValue & (0x1 << 31)) >> 31);
    ((crc31 << 31) & 0x8000_0000) | (crc30to00 & 0x7fff_ffff)
  }

  /**
   * crc32(crc, buf): a null buffer gives 0; otherwise one step of the
   * shift register (InvertCrc32) with the first word of buf XORed in.
   */
  function Crc32(crc: bv32, buf: Option<seq<bv8>>): (r: bv32)
    requires buf.Some? ==> |buf.value| >= 4
    ensures buf.None? ==> r == 0
    ensures buf.Some? ==> r == InvertCrc32(crc) ^ LeWord(buf.value, 0)
  {
    if buf.None? then 0 else Crc32Word(crc, LeWord(buf.value, 0))
  }

  /**
   * The two halves of a checksum step: bits 30..0 are the old checksum
   * shifted right by one XOR the data word; bit 31 is the tap parity of
   * the old checksum XOR bit 31 of the data word.
   */
  lemma Crc32LowBits(crc: bv32, w: bv32)
    ensures Crc32Word(crc, w) & 0x7fff_ffff == ((crc >> 1) ^ w) & 0x7fff_ffff
  {
  }

  lemma Crc32HighBit(crc: bv32, w: bv32)
    ensures Crc32Word(crc, w) >> 31 == TapParity(crc) ^ (w >> 31)
  {
  }

  /** A checksum step is the shift-register step XOR the data word. */
  lemma Crc32WordIsShiftXor(crc: bv32, w: bv32)
    ensures Crc32Word(crc, w) == InvertCrc32(crc) ^ w
  {
  }

  lemma XorCancel(a: bv32, b: bv32, w: bv32)
    ensures a ^ w == b ^ w ==> a == b
  {
  }

  lemma XorInjective(t: bv32, w1: bv32, w2: bv32)
    requires w1 != w2
    ensures t ^ w1 != t ^ w2
  {
  }

  /** From one checksum, different data words give different results. */
  lemma Crc32DistinctWords(crc: bv32, w1: bv32, w2: bv32)
    requires w1 != w2
    ensures Crc32Word(crc, w1) != Crc32Word(crc, w2)
  {
    Crc32WordIsShiftXor(crc, w1);
    Crc32WordIsShiftXor(crc, w2);
    XorInjective(InvertCrc32(crc), w1, w2);
  }

  /** With the same data word, different checksums stay different after a step. */
  lemma Crc32DistinctChecksums(c1: bv32, c2: bv32, w: bv32)
    requires c1 != c2
    ensures Crc32Word(c1, w) != Crc32Word(c2, w)
  {
    Crc32WordIsShiftXor(c1, w);
    Crc32WordIsShiftXor(c2, w);
    XorCancel(InvertCrc32(c1), InvertCrc32(c2), w);
  }

  /** invert_crc32: the same shift and taps as crc32, with no data bits. */
  function InvertCrc32(crc: bv32): (r: bv32)
    ensures UninvertCrc32(r) == crc
  {
    var crc30to00 := (crc >> 1) & 0x7fff_ffff;
    var crc31 := (crc & 0x1)
      ^ ((crc & (0x1 << 4)) >> 4)
      ^ ((crc & (0x1 << 8)) >> 8)
      ^ ((crc & (0x1 << 12)) >> 12)
      ^ ((crc & (0x1 << 17)) >> 17)
      ^ ((crc & (0x1 << 20)) >> 20)
      ^ ((crc & (0x1 << 23)) >> 23)
      ^ ((crc & (0x1 << 28)) >> 28);
    (crc30to00 & 0x7fff_ffff) | ((crc31 << 31) & 0x8000_0000)
  }

  /**
   * The inverse of InvertCrc32: bits 31..1 come back from bits 30..0, and
   * bit 0 from bit 31 and the other taps, which have moved down by one.
   */
  function UninvertCrc32(x: bv32): bv32 {
    var high := (x << 1) & 0xffff_fffe;
    var bit0 := ((x >> 31) & 1)
      ^ ((x >> 3) & 1) ^ ((x >> 7) & 1) ^ ((x >> 11) & 1) ^ ((x >> 16) & 1)
      ^ ((x >> 19) & 1) ^ ((x >> 22) & 1) ^ ((x >> 27) & 1);
    high | bit0
  }

  lemma InvertRoundTrip(x: bv32)
    ensures InvertCrc32(UninvertCrc32(x)) == x
  {
  }

  /** invert_crc32(c) is crc32(c, w) for the all-zero word w. */
  lemma InvertIsZeroWordStep(crc: bv32)
    ensures InvertCrc32(crc) == Crc32(crc, Some([0, 0, 0, 0]))
  {
    assert LeWord([0, 0, 0, 0], 0) == 0;
  }

  // ---------------------------------------------------------------------
  // crc32_create and crc_checker

  /** The checksum of the first n bytes: a left fold of crc32 over words, from 0. */
  function CrcUpTo(buf: seq<bv8>, n: nat): bv32
    requires n % 4 == 0 && n <= |buf|
  {
    if n == 0 then 0 else Crc32Word(CrcUpTo(buf, n - 4), LeWord(buf, n - 4))
  }

  method Crc32Create(buf: seq<bv8>, len: nat) returns (crc: bv32)
    requires len % 4 == 0 && len <= |buf| && len < 0x1_0000_0000
    ensures crc == CrcUpTo(buf, len)
  {
    var total: nat := 0;
    crc := 0;
    while total < len
      invariant total % 4 == 0 && total <= len
      invariant crc == CrcUpTo(buf, total)
    {
      crc := Crc32(crc, Some(buf[total..]));
      assert LeWord(buf[total..], 0) == LeWord(buf, total);
      total := total + 4;
    }
  }

  method CrcChecker(rxCrc: bv32, buf: seq<bv8>, size: nat) returns (ok: bool)
    requires size % 4 == 0 && size <= |buf| && size < 0x1_0000_0000
    ensures ok <==> rxCrc == CrcUpTo(buf, size)
  {
    var crc: bv32 := 0;
    var total: nat := 0;
    while total < size
      invariant total % 4 == 0 && total <= size
      invariant crc == CrcUpTo(buf, total)
    {
      crc := Crc32(crc, Some(buf[total..]));
      assert LeWord(buf[total..], 0) == LeWord(buf, total);
      total := total + 4;
    }
    ok := rxCrc == crc;
  }

  /** The checksum of n bytes depends on those n bytes only. */
  lemma {:induction false} CrcUpToPrefix(a: seq<bv8>, b: seq<bv8>, n: nat)
    requires n % 4 == 0 && n <= |a| && n <= |b|
    requires a[..n] == b[..n]
    ensures CrcUpTo(a, n) == CrcUpTo(b, n)
  {
    if n > 0 {
      assert a[..n - 4] == a[..n][..n - 4] == b[..n][..n - 4] == b[..n - 4];
      CrcUpToPrefix(a, b, n - 4);
      assert a[n - 4..n] == a[..n][n - 4..] == b[..n][n - 4..] == b[n - 4..n];
      LeWordInjective(a, n - 4, b, n - 4);
    }
  }

  /** Once two running checksums differ, equal words never bring them together again. */
  lemma {:induction false} CrcStaysApart(a: seq<bv8>, b: seq<bv8>, m: nat, n: nat)
    requires m % 4 == 0 && n % 4 == 0 && m <= n <= |a| && n <= |b|
    requires a[m..n] == b[m..n]
    requires CrcUpTo(a, m) != CrcUpTo(b, m)
    ensures CrcUpTo(a, n) != CrcUpTo(b, n)
    decreases n - m
  {
    if m < n {
      assert m + 4 <= n;
      assert a[m..m + 4] == a[m..n][..4] == b[m..n][..4] == b[m..m + 4];
      LeWordInjective(a, m, b, m);
      Crc32DistinctChecksums(CrcUpTo(a, m), CrcUpTo(b, m), LeWord(a, m));
      assert a[m + 4..n] == a[m..n][4..] == b[m..n][4..] == b[m + 4..n];
      CrcStaysApart(a, b, m + 4, n);
    }
  }

  /**
   * Two buffers of n bytes that differ only inside one aligned word
   * always have different checksums: every single-bit flip is detected.
   */
  lemma SingleWordChangeDetected(a: seq<bv8>, b: seq<bv8>, n: nat, k: nat)
    requires n % 4 == 0 && n <= |a| && n <= |b|
    requires k % 4 == 0 && k + 4 <= n
    requires a[..k] == b[..k] && a[k + 4..n] == b[k + 4..n]
    requires a[k..k + 4] != b[k..k + 4]
    ensures CrcUpTo(a, n) != CrcUpTo(b, n)
  {
    DivergeAtWord(a, b, k);
    CrcStaysApart(a, b, k + 4, n);
  }

  /** Equal prefixes followed by different words give different checksums. */
  lemma DivergeAtWord(a: seq<bv8>, b: seq<bv8>, k: nat)
    requires k % 4 == 0 && k + 4 <= |a| && k + 4 <= |b|
    requires a[..k] == b[..k] && a[k..k + 4] != b[k..k + 4]
    ensures CrcUpTo(a, k + 4) != CrcUpTo(b, k + 4)
  {
    CrcUpToPrefix(a, b, k);
    LeWordInjective(a, k, b, k);
    Crc32DistinctWords(CrcUpTo(a, k), LeWord(a, k), LeWord(b, k));
  }

  // ---------------------------------------------------------------------
  // get_arr_num

  const INT32_MIN: int := -0x8000_0000
  const INT32_MAX: int := 0x7fff_ffff

  /** C's int division, which truncates toward zero. */
  function CDiv(a: int, e: int): (q: int)
    requires e != 0
    ensures a == q * e + CRem(a, e)
  {
    var m := (if a < 0 then -a else a) / (if e < 0 then -e else e);
    if (a < 0) == (e < 0) then m else -m
  }

  /** C's int remainder, which takes the sign of the dividend. */
  function CRem(a: int, e: int): (r: int)
    requires e != 0
    ensures (if e < 0 then -e else e) > (if r < 0 then -r else r)
    ensures r != 0 ==> (r < 0 <==> a < 0)
  {
    var m := (if a < 0 then -a else a) % (if e < 0 then -e else e);
    if a < 0 then -m else m
  }

  /** get_arr_num: the number of elements, or -1 when the size does not divide. */
  function GetArrNum(arraySize: int, elementSize: int): (r: int)
    requires elementSize != 0
    requires INT32_MIN <= arraySize <= INT32_MAX && INT32_MIN <= elementSize <= INT32_MAX
    requires !(arraySize == INT32_MIN && elementSize == -1)
    ensures CRem(arraySize, elementSize) != 0 ==> r == -1
    ensures CRem(arraySize, elementSize) == 0 ==> r * elementSize == arraySize
  {
    if CRem(arraySize, elementSize) != 0 then -1 else CDiv(arraySize, elementSize)
  }

  /** The byte size of n elements always gives back n. */
  lemma GetArrNumOfWholeArray(n: nat, elementSize: int)
    requires 0 < elementSize <= INT32_MAX && n * elementSize <= INT32_MAX
    ensures GetArrNum(n * elementSize, elementSize) == n
  {
    var a := n * elementSize;
    var q, r := a / elementSize, a % elementSize;
    assert CRem(a, elementSize) == r && CDiv(a, elementSize) == q;
    assert a == q * elementSize + r && 0 <= r < elementSize;
    assert (n - q) * elementSize == r;
    MulBounds(n - q, elementSize);
  }

  lemma MulBounds(d: int, e: int)
    requires e > 0
    ensures d >= 1 ==> d * e >= e
    ensures d <= -1 ==> d * e <= -e
  {
  }

  // ---------------------------------------------------------------------
  // data_int16_to_uint8_bigendian

  const INT16_MIN: int := -0x8000
  const INT16_MAX: int := 0x7fff

  /** uint8_t, as the integer value of the byte. */
  newtype uint8 = x: int | 0 <= x < 0x100

  /** (src >> 8) & 0xFF: an arithmetic shift is a floor division by 256. */
  function HighByte(src: int): uint8 {
    ((src / 256) % 256) as uint8
  }

  /** src & 0xFF on the two's-complement representation. */
  function LowByte(src: int): uint8 {
    (src % 256) as uint8
  }

  /** Reads two bytes, high byte first, as a two's-complement int16. */
  function Int16FromBigEndian(hi: uint8, lo: uint8): (v: int)
    ensures INT16_MIN <= v <= INT16_MAX
  {
    var u := hi as int * 256 + lo as int;
    if u >= 0x8000 then u - 0x1_0000 else u
  }

  method DataInt16ToUint8BigEndian(dest: array<uint8>, src: int) returns (r: int)
    requires dest.Length >= 2
    requires INT16_MIN <= src <= INT16_MAX
    modifies dest
    ensures dest[0] == HighByte(src) && dest[1] == LowByte(src)
    ensures dest[2..] == old(dest[2..])
    ensures r == 0
  {
    dest[0] := HighByte(src);
    dest[1] := LowByte(src);
    r := 0;
  }

  /** Reassembling the two bytes gives back the int16 that was split. */
  lemma Int16RoundTrip(src: int)
    requires INT16_MIN <= src <= INT16_MAX
    ensures Int16FromBigEndian(HighByte(src), LowByte(src)) == src
  {
    var q, l := src / 256, src % 256;
    assert src == 256 * q + l && 0 <= l < 256;
    assert LowByte(src) as int == l;
    if src >= 0 {
      assert 0 <= q < 128;
      assert HighByte(src) as int == q;
    } else {
      assert -128 <= q < 0;
      assert q % 256 == q + 256;
      assert HighByte(src) as int == q + 256;
    }
  }

  /** Splitting a reassembled int16 gives back the same two bytes. */
  lemma BigEndianRoundTrip(hi: uint8, lo: uint8)
    ensures HighByte(Int16FromBigEndian(hi, lo)) == hi
    ensures LowByte(Int16FromBigEndian(hi, lo)) == lo
  {
    var q := if hi >= 128 then hi as int - 256 else hi as int;
    assert Int16FromBigEndian(hi, lo) == q * 256 + lo as int;
    assert (q * 256 + lo as int) / 256 == q;
  }
}
