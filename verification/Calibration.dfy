/** The chip's calibration record and its layout in the chip's memory. */
module Calibration {
  import opened Machine
  import opened Bus

  datatype Calib = Calib(
    t1: int, t2: int, t3: int,
    p1: int, p2: int, p3: int, p4: int, p5: int, p6: int, p7: int, p8: int, p9: int,
    h1: int, h2: int, h3: int, h4: int, h5: int, h6: int)

  /** Every word has its declared width. */
  predicate Words(c: Calib) {
    && InU16(c.t1) && InS16(c.t2) && InS16(c.t3)
    && InU16(c.p1) && InS16(c.p2) && InS16(c.p3) && InS16(c.p4) && InS16(c.p5) && InS16(c.p6)
    && InS16(c.p7) && InS16(c.p8) && InS16(c.p9)
    && 0 <= c.h1 < 256 && InS16(c.h2) && 0 <= c.h3 < 256
    && InS16(c.h4) && InS16(c.h5) && -128 <= c.h6 < 128
  }

  /** A record the chip can hold: H4 and H5 have 12 bits. */
  predicate Storable(c: Calib) {
    Words(c) && -2048 <= c.h4 < 2048 && -2048 <= c.h5 < 2048
  }

  /** `(u16)(u8)msb << 8 | lsb` */
  function Unsigned(lsb: byte, msb: byte): int {
    msb * 256 + lsb
  }

  /** `(s16)(s8)msb << 8 | lsb` */
  function Signed(lsb: byte, msb: byte): int {
    S8(msb) * 256 + lsb
  }

  /** `(s16)(s8)msb << 4 | nibble` */
  function Signed12(nibble: int, msb: byte): int {
    S8(msb) * 16 + nibble
  }

  /** The 16-bit word at index 2k of the first block: T1 and P1 are unsigned, the others signed. */
  function WordAt(a: seq<byte>, k: nat): int
    requires 2 * k + 1 < |a|
  {
    if k == 0 || k == 3 then Unsigned(a[2 * k], a[2 * k + 1]) else Signed(a[2 * k], a[2 * k + 1])
  }

  function WordsOf(a: seq<byte>): (w: seq<int>)
    requires |a| == 26
    ensures |w| == 12
  {
    seq(12, k requires 0 <= k < 12 => WordAt(a, k))
  }

  /** Record c with the words w, in the order of the first block, and H1. */
  function FromWords(c: Calib, w: seq<int>, h1: int): Calib
    requires |w| == 12
  {
    c.(t1 := w[0], t2 := w[1], t3 := w[2],
       p1 := w[3], p2 := w[4], p3 := w[5], p4 := w[6], p5 := w[7], p6 := w[8], p7 := w[9], p8 := w[10], p9 := w[11],
       h1 := h1)
  }

  /** The words of the first block of 26 bytes, the others as in c. */
  function WithLow(c: Calib, a: seq<byte>): Calib
    requires |a| == 26
  {
    FromWords(c, WordsOf(a), a[25])
  }

  /** The words of the second block of 7 bytes; H4 and H5 share the byte at index 4. */
  function WithHigh(c: Calib, b: seq<byte>): Calib
    requires |b| == 7
  {
    c.(h2 := Signed(b[0], b[1]), h3 := b[2],
       h4 := Signed12(b[4] % 16, b[3]), h5 := Signed12(b[4] / 16, b[5]), h6 := S8(b[6]))
  }

  // ----- the layout, independently of the parser -----

  /** Two's complement, low byte first. */
  function Low(w: int): byte { w % 256 }

  function High(w: int): byte { w / 256 % 256 }

  function LowWords(c: Calib): seq<int> {
    [c.t1, c.t2, c.t3, c.p1, c.p2, c.p3, c.p4, c.p5, c.p6, c.p7, c.p8, c.p9]
  }

  function Bytes(words: seq<int>): (a: seq<byte>)
    ensures |a| == 2 * |words|
  {
    seq(2 * |words|, i requires 0 <= i < 2 * |words| => if i % 2 == 0 then Low(words[i / 2]) else High(words[i / 2]))
  }

  function LowBlock(c: Calib, spare: byte): (a: seq<byte>)
    ensures |a| == 26
  {
    Bytes(LowWords(c)) + [spare, c.h1 % 256]
  }

  function HighBlock(c: Calib): (b: seq<byte>)
    ensures |b| == 7
  {
    [Low(c.h2), High(c.h2), c.h3 % 256,
     c.h4 / 16 % 256, c.h4 % 16 + c.h5 % 16 * 16, c.h5 / 16 % 256, c.h6 % 256]
  }

  /** The calibration memory that holds record c; `spare` is the unused byte at 0xA0. */
  function Layout(c: Calib, spare: byte): Nvm {
    Nvm(LowBlock(c, spare), HighBlock(c))
  }

  lemma SignedWord(w: int)
    requires InS16(w)
    ensures Signed(Low(w), High(w)) == w
  {}

  lemma UnsignedWord(w: int)
    requires InU16(w)
    ensures Unsigned(Low(w), High(w)) == w
  {}

  lemma SignedBytes(lsb: byte, msb: byte)
    ensures InS16(Signed(lsb, msb)) && Low(Signed(lsb, msb)) == lsb && High(Signed(lsb, msb)) == msb
  {}

  lemma UnsignedBytes(lsb: byte, msb: byte)
    ensures InU16(Unsigned(lsb, msb)) && Low(Unsigned(lsb, msb)) == lsb && High(Unsigned(lsb, msb)) == msb
  {}

  /** Parsing inverts the layout, whatever the record held before. */
  lemma ParseOfLayout(c: Calib, spare: byte, before: Calib)
    requires Storable(c)
    ensures var n := Layout(c, spare);
            n.Valid() && WithHigh(WithLow(before, n.low), n.high) == c
  {
    WordsOfLayout(c, spare);
    HighOfLayout(c, FromWords(before, LowWords(c), c.h1));
  }

  lemma HighOfLayout(c: Calib, before: Calib)
    requires Storable(c)
    ensures WithHigh(before, HighBlock(c)) == before.(h2 := c.h2, h3 := c.h3, h4 := c.h4, h5 := c.h5, h6 := c.h6)
  {
    var b := HighBlock(c);
    assert b[2] == c.h3 && S8(b[6]) == c.h6;
    assert Signed(b[0], b[1]) == c.h2 by { SignedWord(c.h2); }
    assert Signed12(b[4] % 16, b[3]) == c.h4 && Signed12(b[4] / 16, b[5]) == c.h5 by { Nibbles(c.h4, c.h5); }
  }

  lemma WordsOfLayout(c: Calib, spare: byte)
    requires Words(c)
    ensures WordsOf(LowBlock(c, spare)) == LowWords(c) && LowBlock(c, spare)[25] == c.h1
  {
    var a, w := LowBlock(c, spare), LowWords(c);
    forall k: nat | k < 12
      ensures WordsOf(a)[k] == w[k]
    {
      WordOfBytes(a, w, k);
    }
  }

  lemma WordOfBytes(a: seq<byte>, words: seq<int>, k: nat)
    requires k < |words| && 2 * k + 1 < |a|
    requires a[2 * k] == Low(words[k]) && a[2 * k + 1] == High(words[k])
    requires if k == 0 || k == 3 then InU16(words[k]) else InS16(words[k])
    ensures WordAt(a, k) == words[k]
  {
    if k == 0 || k == 3 { UnsignedWord(words[k]); } else { SignedWord(words[k]); }
  }

  lemma Nibbles(h4: int, h5: int)
    requires -2048 <= h4 < 2048 && -2048 <= h5 < 2048
    ensures var shared := h4 % 16 + h5 % 16 * 16;
            && 0 <= shared < 256
            && Signed12(shared % 16, h4 / 16 % 256) == h4
            && Signed12(shared / 16, h5 / 16 % 256) == h5
  {
    hide Signed12;
    Signed12Again(h4);
    Signed12Again(h5);
  }

  lemma Signed12Again(h: int)
    requires -2048 <= h < 2048
    ensures Signed12(h % 16, h / 16 % 256) == h
  {
    assert S8(h / 16 % 256) == h / 16;
  }

  /** Every memory content is the layout of the record parsed from it: no byte but the spare one is
      ignored, and none is used twice except for its nibbles. */
  lemma LayoutOfParse(n: Nvm, before: Calib)
    requires n.Valid()
    ensures var c := WithHigh(WithLow(before, n.low), n.high);
            Storable(c) && Layout(c, n.low[24]) == n
  {
    var c1 := WithLow(before, n.low);
    var c := WithHigh(c1, n.high);
    LayoutOfHigh(c1, n.high);
    assert LowWords(c) == WordsOf(n.low);
    WordsInRange(n.low);
    LowWordsInRange(c);
    LayoutOfLow(c, n.low);
  }

  lemma LowWordsInRange(c: Calib)
    requires forall k: nat :: k < 12 ==> if k == 0 || k == 3 then InU16(LowWords(c)[k]) else InS16(LowWords(c)[k])
    requires 0 <= c.h1 < 256 && InS16(c.h2) && 0 <= c.h3 < 256 && InS16(c.h4) && InS16(c.h5) && -128 <= c.h6 < 128
    ensures Words(c)
  {
    var w := LowWords(c);
    assert w[0] == c.t1 && w[1] == c.t2 && w[2] == c.t3 && w[3] == c.p1 && w[4] == c.p2 && w[5] == c.p3;
    assert w[6] == c.p4 && w[7] == c.p5 && w[8] == c.p6 && w[9] == c.p7 && w[10] == c.p8 && w[11] == c.p9;
  }

  lemma LayoutOfLow(c: Calib, a: seq<byte>)
    requires |a| == 26 && LowWords(c) == WordsOf(a) && c.h1 == a[25]
    ensures LowBlock(c, a[24]) == a
  {
    BytesOfWords(a);
    assert a == a[..24] + [a[24], a[25]];
  }

  lemma LayoutOfHigh(before: Calib, b: seq<byte>)
    requires |b| == 7
    ensures var c := WithHigh(before, b);
            && HighBlock(c) == b && InS16(c.h2) && 0 <= c.h3 < 256
            && -2048 <= c.h4 < 2048 && -2048 <= c.h5 < 2048 && -128 <= c.h6 < 128
  {
    var c := WithHigh(before, b);
    SignedBytes(b[0], b[1]);
    SharedByte(b[3], b[4], b[5]);
    ByteAgain(b[6]);
    hide Signed, Signed12, Low, High;
    assert HighBlock(c) == b;
  }

  lemma ByteAgain(b: byte)
    ensures S8(b) % 256 == b && -128 <= S8(b) < 128
  {}

  lemma WordsInRange(a: seq<byte>)
    requires |a| == 26
    ensures forall k: nat :: k < 12 ==> if k == 0 || k == 3 then InU16(WordsOf(a)[k]) else InS16(WordsOf(a)[k])
  {
    forall k: nat | k < 12
      ensures if k == 0 || k == 3 then InU16(WordsOf(a)[k]) else InS16(WordsOf(a)[k])
    {
      if k == 0 || k == 3 { UnsignedBytes(a[2 * k], a[2 * k + 1]); } else { SignedBytes(a[2 * k], a[2 * k + 1]); }
    }
  }

  lemma BytesOfWords(a: seq<byte>)
    requires |a| == 26
    ensures Bytes(WordsOf(a)) == a[..24]
  {
    var w := WordsOf(a);
    forall i | 0 <= i < 24
      ensures Bytes(w)[i] == a[i]
    {
      WordHoldsBytes(a, i / 2);
      assert w[i / 2] == WordAt(a, i / 2);
    }
  }

  lemma WordHoldsBytes(a: seq<byte>, k: nat)
    requires 2 * k + 1 < |a|
    ensures Low(WordAt(a, k)) == a[2 * k] && High(WordAt(a, k)) == a[2 * k + 1]
  {
    if k == 0 || k == 3 { UnsignedBytes(a[2 * k], a[2 * k + 1]); } else { SignedBytes(a[2 * k], a[2 * k + 1]); }
  }

  lemma SharedByte(msb4: byte, shared: byte, msb5: byte)
    ensures var h4, h5 := Signed12(shared % 16, msb4), Signed12(shared / 16, msb5);
            && -2048 <= h4 < 2048 && -2048 <= h5 < 2048
            && h4 / 16 % 256 == msb4 && h5 / 16 % 256 == msb5 && h4 % 16 + h5 % 16 * 16 == shared
  {
    Signed12Parts(shared % 16, msb4);
    Signed12Parts(shared / 16, msb5);
  }

  lemma Signed12Parts(nibble: int, msb: byte)
    requires 0 <= nibble < 16
    ensures var h := Signed12(nibble, msb);
            -2048 <= h < 2048 && h / 16 % 256 == msb && h % 16 == nibble
  {
    assert Signed12(nibble, msb) / 16 == S8(msb);
  }

  /** x is the two's-complement reading, below this modulus, of the unsigned number n. */
  predicate SignedIs(x: int, n: int, modulus: int)
    requires modulus > 0
  {
    (x - n) % modulus == 0 && -modulus <= 2 * x < modulus
  }

  function Word(low: int, high: int): int { low + 256 * high }

  function Word12(low: int, high: int): int { low + 16 * high }

  /** Where each word lies in the two blocks, from 0x88 and from 0xE1 (BME280 datasheet, section 4.2.2). */
  lemma ParseSpelledOut(before: Calib, a: seq<byte>, b: seq<byte>)
    requires |a| == 26 && |b| == 7
    ensures var c := WithHigh(WithLow(before, a), b);
            && c.t1 == Word(a[0], a[1])
            && SignedIs(c.t2, Word(a[2], a[3]), 0x1_0000) && SignedIs(c.t3, Word(a[4], a[5]), 0x1_0000)
            && c.p1 == Word(a[6], a[7])
            && SignedIs(c.p2, Word(a[8], a[9]), 0x1_0000) && SignedIs(c.p3, Word(a[10], a[11]), 0x1_0000)
            && SignedIs(c.p4, Word(a[12], a[13]), 0x1_0000) && SignedIs(c.p5, Word(a[14], a[15]), 0x1_0000)
            && SignedIs(c.p6, Word(a[16], a[17]), 0x1_0000) && SignedIs(c.p7, Word(a[18], a[19]), 0x1_0000)
            && SignedIs(c.p8, Word(a[20], a[21]), 0x1_0000) && SignedIs(c.p9, Word(a[22], a[23]), 0x1_0000)
            && c.h1 == a[25]
            && SignedIs(c.h2, Word(b[0], b[1]), 0x1_0000) && c.h3 == b[2]
            && SignedIs(c.h4, Word12(b[4] % 16, b[3]), 0x1000) && SignedIs(c.h5, Word12(b[4] / 16, b[5]), 0x1000)
            && SignedIs(c.h6, b[6], 0x100)
  {
    hide Signed, Signed12, SignedIs;
    SignedSpelledOut(a[2], a[3]);
    SignedSpelledOut(a[4], a[5]);
    SignedSpelledOut(a[8], a[9]);
    SignedSpelledOut(a[10], a[11]);
    SignedSpelledOut(a[12], a[13]);
    SignedSpelledOut(a[14], a[15]);
    SignedSpelledOut(a[16], a[17]);
    SignedSpelledOut(a[18], a[19]);
    SignedSpelledOut(a[20], a[21]);
    SignedSpelledOut(a[22], a[23]);
    SignedSpelledOut(b[0], b[1]);
    Signed12SpelledOut(b[4] % 16, b[3]);
    Signed12SpelledOut(b[4] / 16, b[5]);
    SignedByteSpelledOut(b[6]);
  }

  lemma SignedSpelledOut(lsb: byte, msb: byte)
    ensures SignedIs(Signed(lsb, msb), Word(lsb, msb), 0x1_0000)
  {
    assert Signed(lsb, msb) == lsb + 256 * msb || Signed(lsb, msb) == lsb + 256 * msb - 0x1_0000;
  }

  lemma Signed12SpelledOut(nibble: int, msb: byte)
    requires 0 <= nibble < 16
    ensures SignedIs(Signed12(nibble, msb), Word12(nibble, msb), 0x1000)
  {
    assert Signed12(nibble, msb) == nibble + 16 * msb || Signed12(nibble, msb) == nibble + 16 * msb - 0x1000;
  }

  lemma SignedByteSpelledOut(b: byte)
    ensures SignedIs(S8(b), b, 0x100)
  {
    assert S8(b) == b || S8(b) == b - 0x100;
  }

  // ----- measurement registers -----

  datatype Raw = Raw(pressure: int, temperature: int, humidity: int)

  /** `msb << 12 | lsb << 4 | xlsb >> 4` */
  function Decode20(msb: int, lsb: int, xlsb: int): int {
    msb * 4096 + lsb * 16 + xlsb / 16
  }

  /** `msb << 8 | lsb` */
  function Decode16(msb: int, lsb: int): int {
    msb * 256 + lsb
  }

  /** The burst of eight bytes: pressure, temperature, humidity. */
  function DecodeBurst(a: seq<byte>): Raw
    requires |a| == 8
  {
    Raw(Decode20(a[0], a[1], a[2]), Decode20(a[3], a[4], a[5]), Decode16(a[6], a[7]))
  }

  /** The layout of a 20-bit reading, with the four unused bits of the last byte. */
  function Encode20(n: int, unused: int): seq<byte>
    requires 0 <= n < 0x10_0000 && 0 <= unused < 16
  {
    [n / 4096, n / 16 % 256, n % 16 * 16 + unused]
  }

  function Encode16(n: int): seq<byte>
    requires 0 <= n < 0x1_0000
  {
    [n / 256, n % 256]
  }

  /** The burst and the three separate reads decode the same registers to the same values, which are
      the values laid out there. */
  lemma BurstRoundTrip(r: Raw, u: int, u': int)
    requires 0 <= r.pressure < 0x10_0000 && 0 <= r.temperature < 0x10_0000 && 0 <= r.humidity < 0x1_0000
    requires 0 <= u < 16 && 0 <= u' < 16
    ensures DecodeBurst(Encode20(r.pressure, u) + Encode20(r.temperature, u') + Encode16(r.humidity)) == r
  {
    Decode20OfEncode(r.pressure, u);
    Decode20OfEncode(r.temperature, u');
  }

  lemma Decode20OfEncode(n: int, unused: int)
    requires 0 <= n < 0x10_0000 && 0 <= unused < 16
    ensures var a := Encode20(n, unused); Decode20(a[0], a[1], a[2]) == n
  {}

  /** Where each reading lies in the burst, from 0xF7, high byte first; the low four bits of the third and of
      the sixth byte are none of it. */
  lemma BurstSpelledOut(a: seq<byte>)
    requires |a| == 8
    ensures var r := DecodeBurst(a);
            && ReadsAs(r.pressure, a[0], a[1], a[2]) && ReadsAs(r.temperature, a[3], a[4], a[5])
            && r.humidity == Word(a[7], a[6])
  {}

  /** n is the upper 20 bits of the three bytes. */
  predicate ReadsAs(n: int, high: int, middle: int, low: int) {
    0 <= 65536 * high + 256 * middle + low - 16 * n < 16
  }

  /** Every burst decodes to readings of 20, 20 and 16 bits. */
  lemma BurstRange(a: seq<byte>)
    requires |a| == 8
    ensures var r := DecodeBurst(a);
            0 <= r.pressure < 0x10_0000 && 0 <= r.temperature < 0x10_0000 && 0 <= r.humidity < 0x1_0000
  {}
}
