/**
 * The ADS131M06 driver's codec (Drivers/ADS131M0x/ads131m0x.c): byte and word
 * helpers, 24-bit sign extension, the MSB-first CRC-16, the SPI command frame
 * builder, the MODE register fields the driver enforces, the register shadow
 * map and the parser of a data frame. The SPI transfers themselves are not
 * part of this model: what the device answers is a parameter.
 */
module Ads131 {
  import opened Typedefs

  /** NUM_REGISTERS: the size of the register shadow map (the TI register map of the ADS131M0x). */
  const NumRegisters: nat := 64
  /** MODE_ADDRESS. */
  const ModeAddress: nat := 2
  const OpcodeRreg: bv16 := 0xA000
  const OpcodeWreg: bv16 := 0x6000
  /** bytesPerWord: the firmware fixes the 24-bit word length. */
  const BytesPerWord: nat := 3
  /** CRC polynomials: CCITT x^16 + x^12 + x^5 + 1 and ANSI x^16 + x^15 + x^2 + 1. */
  const PolyCcitt: bv16 := 0x1021
  const PolyAnsi: bv16 := 0x8005
  /** The seed of a new CRC computation. */
  const CrcSeed: bv16 := 0xFFFF

  /** MODE register fields. */
  const RxCrcEn: bv16 := 0x1000
  const WlengthMask: bv16 := 0x0300
  const Wlength24: bv16 := 0x0100
  const DrdyFmtMask: bv16 := 0x0001
  const CrcTypeMask: bv16 := 0x0800
  /** Every bit the driver enforces. */
  const EnforcedMask: bv16 := 0x1B01

  /**
   * The build options of the driver that its configuration header selects:
   * ENABLE_CRC_IN, CRC_ANSI (else CRC_CCITT) and DRDY_FMT_PULSE.
   */
  datatype Config = Config(crcIn: bool, ansi: bool, drdyPulse: bool)

  function Poly(config: Config): bv16
  {
    if config.ansi then PolyAnsi else PolyCcitt
  }

  /** upperByte(): the most significant byte of a word. */
  function Upper(w: bv16): bv8
  {
    ((w >> 8) & 0xFF) as bv8
  }

  /** lowerByte(): the least significant byte of a word. */
  function Lower(w: bv16): bv8
  {
    (w & 0xFF) as bv8
  }

  /** combineBytes(): the word with the given upper and lower bytes. */
  function Combine(upper: bv8, lower: bv8): (w: bv16)
    ensures Upper(w) == upper && Lower(w) == lower
  {
    ((upper as bv16) << 8) | (lower as bv16)
  }

  /** Splitting a word and combining its bytes gives the word back. */
  lemma CombineSplit(w: bv16)
    ensures Combine(Upper(w), Lower(w)) == w
  {
  }


  // ---------------------------------------------------------------- 24-bit words

  /**
   * signExtend() for 24-bit words: the three bytes, MSB first, are placed in
   * the top 24 bits of an int32 and shifted right arithmetically by 8 (the
   * floor division of the signed value).
   */
  function SignExtend(b0: bv8, b1: bv8, b2: bv8): int
  {
    Shifted(b0 as int, b1 as int, b2 as int)
  }

  /** SignExtend on the values of the three bytes. */
  function Shifted(x0: int, x1: int, x2: int): int
  {
    var w := x0 * 0x100_0000 + x1 * 0x1_0000 + x2 * 0x100;
    var s := if w >= 0x8000_0000 then w - 0x1_0000_0000 else w;
    s / 0x100
  }

  /** The 24-bit two's-complement value of three bytes, MSB first. */
  function TwosComplement24(b0: bv8, b1: bv8, b2: bv8): (v: int)
    ensures -0x80_0000 <= v < 0x80_0000
  {
    Signed24(b0 as int, b1 as int, b2 as int)
  }

  /** TwosComplement24 on the values of the three bytes. */
  function Signed24(x0: int, x1: int, x2: int): (v: int)
    requires 0 <= x0 < 0x100 && 0 <= x1 < 0x100 && 0 <= x2 < 0x100
    ensures -0x80_0000 <= v < 0x80_0000
  {
    var u := x0 * 0x1_0000 + x1 * 0x100 + x2;
    if x0 >= 0x80 then u - 0x100_0000 else u
  }

  lemma ExactShift(v: int)
    ensures (v * 0x100) / 0x100 == v
  {
  }

  /** The arithmetic of SignExtendValue on the byte values. */
  lemma SignExtendInt(x0: int, x1: int, x2: int)
    requires 0 <= x0 < 0x100 && 0 <= x1 < 0x100 && 0 <= x2 < 0x100
    ensures Shifted(x0, x1, x2) == Signed24(x0, x1, x2)
  {
    var u := x0 * 0x1_0000 + x1 * 0x100 + x2;
    var w := x0 * 0x100_0000 + x1 * 0x1_0000 + x2 * 0x100;
    assert w == u * 0x100;
    assert w >= 0x8000_0000 <==> x0 >= 0x80;
    if x0 >= 0x80 {
      assert w - 0x1_0000_0000 == (u - 0x100_0000) * 0x100;
      ExactShift(u - 0x100_0000);
    } else {
      ExactShift(u);
    }
  }

  /** signExtend returns the two's-complement value (so a code in [-2^23, 2^23), by TwosComplement24). */
  lemma SignExtendValue(b0: bv8, b1: bv8, b2: bv8)
    ensures SignExtend(b0, b1, b2) == TwosComplement24(b0, b1, b2)
  {
    SignExtendInt(b0 as int, b1 as int, b2 as int);
  }

  /** The three bytes, MSB first, of a 24-bit code: what the converter sends for it. */
  function Encode24(v: int): (b: seq<bv8>)
    requires -0x80_0000 <= v < 0x80_0000
    ensures |b| == 3
  {
    var u := if v < 0 then v + 0x100_0000 else v;
    var q := u / 0x100;
    [(q / 0x100) as bv8, (q % 0x100) as bv8, (u % 0x100) as bv8]
  }

  lemma Digits(u: int)
    requires 0 <= u < 0x100_0000
    ensures var q := u / 0x100;
            0 <= q / 0x100 < 0x100 && 0 <= q % 0x100 < 0x100 && 0 <= u % 0x100 < 0x100
            && (q / 0x100) * 0x1_0000 + (q % 0x100) * 0x100 + u % 0x100 == u
  {
  }

  lemma ByteOf(x: int)
    requires 0 <= x < 0x100
    ensures (x as bv8) as int == x
  {
    if x < 0x80 {
      if x < 0x40 { } else { }
    } else {
      if x < 0xC0 { } else { }
    }
  }

  /** Every 24-bit code survives encoding and sign extension. */
  lemma SignExtendEncode(v: int)
    requires -0x80_0000 <= v < 0x80_0000
    ensures var b := Encode24(v); SignExtend(b[0], b[1], b[2]) == v
  {
    var b := Encode24(v);
    var u := if v < 0 then v + 0x100_0000 else v;
    Digits(u);
    var q := u / 0x100;
    ByteOf(q / 0x100);
    ByteOf(q % 0x100);
    ByteOf(u % 0x100);
    SignExtendValue(b[0], b[1], b[2]);
  }

  // ---------------------------------------------------------------- CRC-16

  /**
   * One bit step of calculateCRC(): shift the register left, XOR the
   * polynomial when the data bit (the top bit of `e`) and the register's top
   * bit differ.
   */
  function Step(crc: bv16, e: bv16, poly: bv16): bv16
  {
    if (crc ^ e) & 0x8000 == 0x8000 then (crc << 1) ^ poly else crc << 1
  }

  /** `k` bit steps, the data bits still to be used in the top bits of `e`. */
  function Bits(crc: bv16, e: bv16, k: nat, poly: bv16): bv16
    decreases k
  {
    if k == 0 then crc else Bits(Step(crc, e, poly), e << 1, k - 1, poly)
  }

  /** A data byte moved to the upper half of a word, where its bits meet the register's top bit. */
  function High(b: bv8): bv16
  {
    (b as bv16) << 8
  }

  const BitsPerByte: nat := 8

  /** The eight bit steps of one byte, most significant bit first. */
  function Byte(crc: bv16, b: bv8, poly: bv16): bv16
  {
    Bits(crc, High(b), BitsPerByte, poly)
  }

  /** The CRC register after feeding `data` into a register holding `crc`. */
  function Crc(data: seq<bv8>, crc: bv16, poly: bv16): bv16
    decreases |data|
  {
    if |data| == 0 then crc else Crc(data[1..], Byte(crc, data[0], poly), poly)
  }

  /**
   * Chaining: a CRC over two blocks is the CRC of the second seeded with that
   * of the first, which is what the `initialValue` parameter is for.
   */
  lemma {:induction false} CrcAppend(a: seq<bv8>, b: seq<bv8>, crc: bv16, poly: bv16)
    ensures Crc(a + b, crc, poly) == Crc(b, Crc(a, crc, poly), poly)
    decreases |a|
  {
    if |a| > 0 {
      assert (a + b)[0] == a[0];
      assert (a + b)[1..] == a[1..] + b;
      CrcAppend(a[1..], b, Byte(crc, a[0], poly), poly);
    } else {
      assert a + b == b;
    }
  }

  /** While register and data agree on their upper byte, no step applies the polynomial. */
  lemma BitsNoPoly(x: bv16, e: bv16, poly: bv16)
    requires (x ^ e) & 0xFF00 == 0
    ensures Bits(x, e, 8, poly) == x << 8
  {
  }

  lemma ByteNoPoly(x: bv16, b: bv8, poly: bv16)
    requires (x ^ High(b)) & 0xFF00 == 0
    ensures Byte(x, b, poly) == x << 8
  {
    BitsNoPoly(x, High(b), poly);
  }

  /** How a register relates to its own upper and lower byte. */
  lemma SplitFacts(c: bv16)
    ensures (c ^ High(Upper(c))) & 0xFF00 == 0
    ensures c << 8 == High(Lower(c))
    ensures (High(Lower(c)) ^ High(Lower(c))) & 0xFF00 == 0 && High(Lower(c)) << 8 == 0
  {
  }

  lemma ZeroFacts(z: bv16, b: bv8)
    requires z == 0 && b == 0
    ensures (z ^ High(b)) & 0xFF00 == 0 && z << 8 == 0
  {
  }

  /** `n` zero bytes. */
  function Zeros(n: nat): (r: seq<bv8>)
    ensures |r| == n && forall i :: 0 <= i < n ==> r[i] == 0
  {
    seq(n, _ => 0)
  }

  /** A zero register stays zero over zero bytes. */
  lemma {:induction false} ZeroCrc(n: nat, poly: bv16)
    ensures Crc(Zeros(n), 0, poly) == 0
    decreases n
  {
    if n > 0 {
      ZeroFacts(0, 0);
      ByteNoPoly(0, 0, poly);
      assert Zeros(n)[1..] == Zeros(n - 1);
      ZeroCrc(n - 1, poly);
    }
  }

  /**
   * Continuing a CRC over its own two bytes, upper first, leaves a zero
   * register, and so does any zero padding after them (the rest of a CRC
   * word longer than two bytes): a receiver checks a frame by a residue test.
   */
  lemma Residue(data: seq<bv8>, seed: bv16, poly: bv16, pad: nat)
    ensures var c := Crc(data, seed, poly);
            Crc(data + [Upper(c), Lower(c)] + Zeros(pad), seed, poly) == 0
  {
    var c := Crc(data, seed, poly);
    var u, l := Upper(c), Lower(c);
    CrcAppend(data + [u, l], Zeros(pad), seed, poly);
    CrcAppend(data, [u, l], seed, poly);
    SplitFacts(c);
    ByteNoPoly(c, u, poly);
    var c1 := Byte(c, u, poly);
    assert c1 == High(l);
    ByteNoPoly(c1, l, poly);
    var c2 := Byte(c1, l, poly);
    assert c2 == 0;
    assert Crc([], c2, poly) == c2;
    assert [u, l][1..] == [l];
    assert Crc([l], c1, poly) == Crc([], c2, poly);
    assert Crc([u, l], c, poly) == Crc([l], c1, poly);
    ZeroCrc(pad, poly);
  }

  /**
   * The bits of data byte `b` selected by `bitIndex`, `bitIndex >> 1`, ...
   * are the top bits of `e`, `e << 1`, ... for `k` steps, after which the
   * index is exhausted.
   */
  ghost predicate IndexMatches(b: bv8, bitIndex: bv8, e: bv16, k: nat)
    decreases k
  {
    if k == 0 then bitIndex == 0
    else bitIndex != 0 && ((b & bitIndex != 0) == (e & 0x8000 != 0)) && IndexMatches(b, bitIndex >> 1, e << 1, k - 1)
  }

  lemma IndexMatchesByte(b: bv8)
    ensures IndexMatches(b, 0x80, High(b), BitsPerByte)
  {
  }

  lemma TopBit(crc: bv16, e: bv16)
    ensures ((crc ^ e) & 0x8000 == 0x8000) == ((crc & 0x8000 != 0) != (e & 0x8000 != 0))
  {
  }

  /** The statements of one pass of calculateCRC()'s bit loop. */
  function CodeStep(crc: bv16, b: bv8, bitIndex: bv8, poly: bv16): bv16
  {
    if (b & bitIndex != 0) != (crc & 0x8000 != 0) then (crc << 1) ^ poly else crc << 1
  }

  /** One pass of the bit loop is one Step of the specification. */
  lemma BitStep(b: bv8, bitIndex: bv8, e: bv16, k: nat, crc: bv16, poly: bv16)
    requires IndexMatches(b, bitIndex, e, k) && bitIndex != 0
    ensures k > 0 && IndexMatches(b, bitIndex >> 1, e << 1, k - 1)
    ensures Bits(crc, e, k, poly) == Bits(CodeStep(crc, b, bitIndex, poly), e << 1, k - 1, poly)
  {
    TopBit(crc, e);
    assert CodeStep(crc, b, bitIndex, poly) == Step(crc, e, poly);
  }

  /**
   * calculateCRC(): an MSB-first CRC-16 with no final XOR over the first
   * `numberBytes` bytes, seeded with `initialValue` (0xFFFF for a new
   * computation, a previous result to continue one).
   */
  method CalculateCrc(dataBytes: seq<bv8>, numberBytes: nat, initialValue: bv16, poly: bv16) returns (crc: bv16)
    requires numberBytes <= |dataBytes| && numberBytes < 256
    ensures crc == Crc(dataBytes[..numberBytes], initialValue, poly)
  {
    crc := initialValue;
    var byteIndex := 0;
    while byteIndex < numberBytes
      invariant 0 <= byteIndex <= numberBytes
      invariant Crc(dataBytes[..numberBytes], initialValue, poly) == Crc(dataBytes[byteIndex..numberBytes], crc, poly)
    {
      crc := CrcByte(crc, dataBytes[byteIndex], poly);
      assert dataBytes[byteIndex..numberBytes][1..] == dataBytes[byteIndex + 1..numberBytes];
      byteIndex := byteIndex + 1;
    }
  }

  /** The bit loop of calculateCRC() over one byte, `bitIndex` = 0x80, 0x40, ..., 1. */
  method CrcByte(crc0: bv16, b: bv8, poly: bv16) returns (crc: bv16)
    ensures crc == Byte(crc0, b, poly)
  {
    crc := crc0;
    ghost var e := High(b);
    ghost var k: nat := BitsPerByte;
    var bitIndex: bv8 := 0x80;
    IndexMatchesByte(b);
    while bitIndex > 0
      invariant IndexMatches(b, bitIndex, e, k)
      invariant Bits(crc, e, k, poly) == Byte(crc0, b, poly)
      decreases k
    {
      BitStep(b, bitIndex, e, k, crc, poly);
      var dataMSb := b & bitIndex != 0;
      var crcMSb := crc & 0x8000 != 0;
      crc := crc << 1;
      if dataMSb != crcMSb {
        crc := crc ^ poly;
      }
      bitIndex := bitIndex >> 1;
      e := e << 1;
      k := k - 1;
    }
  }

  // ---------------------------------------------------------------- commands and MODE

  /** A register command: the opcode base with the register address in bits 7..12. */
  function Opcode(base: bv16, address: nat): bv16
    requires address < NumRegisters
  {
    base | ((address as bv16) << 7)
  }

  /** The address and the command can be read back from an RREG or WREG opcode. */
  lemma OpcodeFields(base: bv16, address: nat)
    requires address < NumRegisters
    requires base == OpcodeRreg || base == OpcodeWreg
    ensures (Opcode(base, address) >> 7) & 0x3F == address as bv16
    ensures Opcode(base, address) & 0xE07F == base
  {
    var a := address as bv16;
    assert a < 64;
    AddressBits(base, a);
  }

  lemma AddressBits(base: bv16, a: bv16)
    requires a < 64 && base & 0x1FFF == 0
    ensures ((base | (a << 7)) >> 7) & 0x3F == a
    ensures (base | (a << 7)) & 0xE07F == base
  {
  }

  /** Field `mask` of `data` replaced by `value`. */
  function SetField(data: bv16, mask: bv16, value: bv16): bv16
  {
    (data & !mask) | value
  }

  /**
   * enforce_selected_device_modes(): the MODE register value the driver
   * writes, with RX_CRC_EN, WLENGTH (24-bit), DRDY_FMT and CRC_TYPE forced to
   * the build's choices.
   */
  function Enforce(config: Config, data: bv16): (r: bv16)
  {
    var d1 := SetField(data, RxCrcEn, if config.crcIn then RxCrcEn else 0);
    var d2 := SetField(d1, WlengthMask, Wlength24);
    var d3 := SetField(d2, DrdyFmtMask, if config.drdyPulse then DrdyFmtMask else 0);
    SetField(d3, CrcTypeMask, if config.ansi then CrcTypeMask else 0)
  }

  lemma SetFieldGets(data: bv16, mask: bv16, value: bv16)
    requires value & !mask == 0
    ensures SetField(data, mask, value) & mask == value
  {
  }

  lemma SetFieldKeeps(data: bv16, mask: bv16, value: bv16, other: bv16)
    requires value & !mask == 0 && mask & other == 0
    ensures SetField(data, mask, value) & other == data & other
  {
  }

  /** The enforced fields take the build's values; every other bit of MODE is kept. */
  lemma EnforceFields(config: Config, data: bv16)
    ensures Enforce(config, data) & RxCrcEn == (if config.crcIn then RxCrcEn else 0)
    ensures Enforce(config, data) & WlengthMask == Wlength24
    ensures Enforce(config, data) & DrdyFmtMask == (if config.drdyPulse then DrdyFmtMask else 0)
    ensures Enforce(config, data) & CrcTypeMask == (if config.ansi then CrcTypeMask else 0)
    ensures Enforce(config, data) & !EnforcedMask == data & !EnforcedMask
  {
    EnforceCrcEn(config, data);
    EnforceWlength(config, data);
    EnforceDrdy(config, data);
    EnforceCrcType(config, data);
    EnforceRest(config, data);
  }

  lemma EnforceCrcEn(config: Config, data: bv16)
    ensures Enforce(config, data) & RxCrcEn == (if config.crcIn then RxCrcEn else 0)
  {
    var v1: bv16 := if config.crcIn then RxCrcEn else 0;
    var v3: bv16 := if config.drdyPulse then DrdyFmtMask else 0;
    var v4: bv16 := if config.ansi then CrcTypeMask else 0;
    var d1 := SetField(data, RxCrcEn, v1);
    var d2 := SetField(d1, WlengthMask, Wlength24);
    var d3 := SetField(d2, DrdyFmtMask, v3);
    SetFieldGets(data, RxCrcEn, v1);
    SetFieldKeeps(d1, WlengthMask, Wlength24, RxCrcEn);
    SetFieldKeeps(d2, DrdyFmtMask, v3, RxCrcEn);
    SetFieldKeeps(d3, CrcTypeMask, v4, RxCrcEn);
  }

  lemma EnforceWlength(config: Config, data: bv16)
    ensures Enforce(config, data) & WlengthMask == Wlength24
  {
    var v1: bv16 := if config.crcIn then RxCrcEn else 0;
    var v3: bv16 := if config.drdyPulse then DrdyFmtMask else 0;
    var v4: bv16 := if config.ansi then CrcTypeMask else 0;
    var d1 := SetField(data, RxCrcEn, v1);
    var d2 := SetField(d1, WlengthMask, Wlength24);
    var d3 := SetField(d2, DrdyFmtMask, v3);
    SetFieldGets(d1, WlengthMask, Wlength24);
    SetFieldKeeps(d2, DrdyFmtMask, v3, WlengthMask);
    SetFieldKeeps(d3, CrcTypeMask, v4, WlengthMask);
  }

  lemma EnforceDrdy(config: Config, data: bv16)
    ensures Enforce(config, data) & DrdyFmtMask == (if config.drdyPulse then DrdyFmtMask else 0)
  {
    var v1: bv16 := if config.crcIn then RxCrcEn else 0;
    var v3: bv16 := if config.drdyPulse then DrdyFmtMask else 0;
    var v4: bv16 := if config.ansi then CrcTypeMask else 0;
    var d1 := SetField(data, RxCrcEn, v1);
    var d2 := SetField(d1, WlengthMask, Wlength24);
    var d3 := SetField(d2, DrdyFmtMask, v3);
    SetFieldGets(d2, DrdyFmtMask, v3);
    SetFieldKeeps(d3, CrcTypeMask, v4, DrdyFmtMask);
  }

  lemma EnforceCrcType(config: Config, data: bv16)
    ensures Enforce(config, data) & CrcTypeMask == (if config.ansi then CrcTypeMask else 0)
  {
    var v1: bv16 := if config.crcIn then RxCrcEn else 0;
    var v3: bv16 := if config.drdyPulse then DrdyFmtMask else 0;
    var v4: bv16 := if config.ansi then CrcTypeMask else 0;
    var d1 := SetField(data, RxCrcEn, v1);
    var d2 := SetField(d1, WlengthMask, Wlength24);
    var d3 := SetField(d2, DrdyFmtMask, v3);
    SetFieldGets(d3, CrcTypeMask, v4);
  }

  /** The bits outside the enforced fields pass through Enforce unchanged. */
  lemma EnforceRest(config: Config, data: bv16)
    ensures Enforce(config, data) & !EnforcedMask == data & !EnforcedMask
  {
    var v1: bv16 := if config.crcIn then RxCrcEn else 0;
    var v3: bv16 := if config.drdyPulse then DrdyFmtMask else 0;
    var v4: bv16 := if config.ansi then CrcTypeMask else 0;
    assert Enforce(config, data) == SetField(SetField(SetField(SetField(data, RxCrcEn, v1), WlengthMask, Wlength24), DrdyFmtMask, v3), CrcTypeMask, v4);
    FieldsKeepRest(data, v1, v3, v4);
  }

  /** Setting the four enforced fields, each to a value inside its mask, leaves the other bits alone. */
  lemma FieldsKeepRest(data: bv16, v1: bv16, v3: bv16, v4: bv16)
    requires v1 & !RxCrcEn == 0 && v3 & !DrdyFmtMask == 0 && v4 & !CrcTypeMask == 0
    ensures SetField(SetField(SetField(SetField(data, RxCrcEn, v1), WlengthMask, Wlength24), DrdyFmtMask, v3), CrcTypeMask, v4)
            & !EnforcedMask == data & !EnforcedMask
  {
  }

  /** Two words that agree on the enforced fields and on every other bit are equal. */
  lemma SameFields(a: bv16, b: bv16)
    requires a & RxCrcEn == b & RxCrcEn && a & WlengthMask == b & WlengthMask
    requires a & DrdyFmtMask == b & DrdyFmtMask && a & CrcTypeMask == b & CrcTypeMask
    requires a & !EnforcedMask == b & !EnforcedMask
    ensures a == b
  {
  }

  /** Enforcing twice is enforcing once. */
  lemma EnforceIdempotent(config: Config, data: bv16)
    ensures Enforce(config, Enforce(config, data)) == Enforce(config, data)
  {
    var r := Enforce(config, data);
    EnforceFields(config, data);
    EnforceFields(config, r);
    SameFields(Enforce(config, r), r);
  }

  /**
   * getWordByteLength(): the SPI word length selected by MODE's WLENGTH field,
   * looked up in wlength_byte_values = {2, 3, 4, 4}.
   */
  function WordByteLength(mode: bv16): (n: nat)
    ensures 2 <= n <= 4
  {
    var field := mode & WlengthMask;
    if field == 0x0000 then 2 else if field == 0x0100 then 3 else 4
  }

  /** SPI_CRC_ENABLED: whether MODE's RX_CRC_EN bit asks for an input CRC word. */
  predicate SpiCrcEnabled(mode: bv16)
  {
    mode & RxCrcEn != 0
  }

  /** A MODE value the driver wrote selects 24-bit words and an input CRC exactly when the build does. */
  lemma EnforcedMode(config: Config, data: bv16)
    ensures WordByteLength(Enforce(config, data)) == BytesPerWord
    ensures SpiCrcEnabled(Enforce(config, data)) == config.crcIn
  {
    EnforceFields(config, data);
  }

  // ---------------------------------------------------------------- SPI frames

  lemma MulMono(a: nat, b: nat, w: nat)
    requires a <= b
    ensures a * w <= b * w
  {
  }

  /** Word `a` ends before word `b` starts. */
  lemma MulStep(a: nat, b: nat, w: nat)
    requires a < b
    ensures a * w + w <= b * w
  {
    MulMono(a + 1, b, w);
    assert (a + 1) * w == a * w + w;
  }

  /** A frame of fewer than 63 opcodes and a CRC word fits the driver's uint8_t byte count. */
  lemma FrameBound(n: nat, w: nat)
    requires n < 63 && w <= 4
    ensures (n + 1) * w < 256
  {
    MulMono(w, 4, n + 1);
  }

  /** The CRC word's slot after `n` words of `w` bytes: room for its two bytes, within a uint8_t count. */
  lemma CrcSlot(n: nat, w: nat)
    requires n < 63 && 2 <= w <= 4
    ensures (n + 1) * w == n * w + w && n * w + w < 256
  {
    FrameBound(n, w);
  }

  /** The first `i` opcodes written MSB-first at offsets 0, w, 2w, ... of `bytes`. */
  function Place(bytes: seq<bv8>, ops: seq<bv16>, w: nat, i: nat): (r: seq<bv8>)
    requires 2 <= w && i <= |ops| && |ops| * w <= |bytes|
    ensures |r| == |bytes|
    decreases i
  {
    if i == 0 then bytes
    else
      MulStep(i - 1, |ops|, w);
      Place(bytes, ops, w, i - 1)[(i - 1) * w := Upper(ops[i - 1])][(i - 1) * w + 1 := Lower(ops[i - 1])]
  }

  /** Opcode `k` sits at offset k·w, upper byte first. */
  lemma {:induction false} PlaceWord(bytes: seq<bv8>, ops: seq<bv16>, w: nat, i: nat, k: nat)
    requires 2 <= w && i <= |ops| && |ops| * w <= |bytes| && k < i
    ensures k * w + 1 < |bytes|
    ensures Place(bytes, ops, w, i)[k * w] == Upper(ops[k]) && Place(bytes, ops, w, i)[k * w + 1] == Lower(ops[k])
    decreases i
  {
    MulStep(k, |ops|, w);
    MulStep(i - 1, |ops|, w);
    var p := (i - 1) * w;
    var q := k * w;
    var prev := Place(bytes, ops, w, i - 1);
    assert Place(bytes, ops, w, i) == prev[p := Upper(ops[i - 1])][p + 1 := Lower(ops[i - 1])];
    if k < i - 1 {
      MulStep(k, i - 1, w);
      assert q + 1 < p;
      PlaceWord(bytes, ops, w, i - 1, k);
    } else {
      assert q == p;
    }
  }

  /** The bytes after the last placed word are left as they were. */
  lemma {:induction false} PlaceBeyond(bytes: seq<bv8>, ops: seq<bv16>, w: nat, i: nat, j: nat)
    requires 2 <= w && i <= |ops| && |ops| * w <= |bytes| && i * w <= j < |bytes|
    ensures Place(bytes, ops, w, i)[j] == bytes[j]
    decreases i
  {
    if i > 0 {
      MulStep(i - 1, i, w);
      PlaceBeyond(bytes, ops, w, i - 1, j);
    }
  }

  /** numberOfBytes of buildSPIarray(): the opcode words, plus a CRC word if MODE asks for one. */
  function NumberOfBytes(numberOpcodes: nat, mode: bv16): nat
  {
    (numberOpcodes + (if SpiCrcEnabled(mode) then 1 else 0)) * WordByteLength(mode)
  }

  /** The room buildSPIarray() writes into: the opcode words, and the CRC word when the build adds one. */
  function Room(config: Config, numberOpcodes: nat, mode: bv16): nat
  {
    (numberOpcodes + (if config.crcIn then 1 else 0)) * WordByteLength(mode)
  }

  /**
   * The transmit frame of buildSPIarray() as written: the opcodes are placed,
   * then, in a build with ENABLE_CRC_IN, the CRC of the first numberOfBytes
   * bytes (a count that includes the CRC word's own slot) is written after them.
   */
  function FrameAsWritten(config: Config, mode: bv16, bytes: seq<bv8>, ops: seq<bv16>): (r: seq<bv8>)
    requires Room(config, |ops|, mode) <= |bytes|
    ensures |r| == |bytes|
  {
    var w := WordByteLength(mode);
    MulMono(|ops|, |ops| + 1, w);
    var placed := Place(bytes, ops, w, |ops|);
    if config.crcIn then
      var c := Crc(placed[..NumberOfBytes(|ops|, mode)], CrcSeed, Poly(config));
      placed[|ops| * w := Upper(c)][|ops| * w + 1 := Lower(c)]
    else placed
  }

  /** The transmit frame with the CRC taken over the opcode words only, the words that precede it. */
  function FrameCorrected(config: Config, mode: bv16, bytes: seq<bv8>, ops: seq<bv16>): (r: seq<bv8>)
    requires Room(config, |ops|, mode) <= |bytes|
    ensures |r| == |bytes|
  {
    var w := WordByteLength(mode);
    MulMono(|ops|, |ops| + 1, w);
    var placed := Place(bytes, ops, w, |ops|);
    if config.crcIn then
      var c := Crc(placed[..|ops| * w], CrcSeed, Poly(config));
      placed[|ops| * w := Upper(c)][|ops| * w + 1 := Lower(c)]
    else placed
  }

  /**
   * With the CRC over the opcode words, the frame the device receives passes
   * its check: the CRC continued over everything sent, the CRC word and its
   * zero padding included, is 0.
   */
  lemma CorrectedFrameChecks(config: Config, mode: bv16, bytes: seq<bv8>, ops: seq<bv16>)
    requires Room(config, |ops|, mode) <= |bytes|
    requires config.crcIn && SpiCrcEnabled(mode)
    requires forall j :: |ops| * WordByteLength(mode) + 2 <= j < (|ops| + 1) * WordByteLength(mode) ==> bytes[j] == 0
    ensures Crc(FrameCorrected(config, mode, bytes, ops)[..NumberOfBytes(|ops|, mode)], CrcSeed, Poly(config)) == 0
  {
    var w := WordByteLength(mode);
    var n := NumberOfBytes(|ops|, mode);
    var m := |ops| * w;
    assert n == m + w;
    MulMono(|ops|, |ops| + 1, w);
    var placed := Place(bytes, ops, w, |ops|);
    var c := Crc(placed[..m], CrcSeed, Poly(config));
    forall j | m + 2 <= j < m + w
      ensures placed[j] == 0
    {
      PlaceBeyond(bytes, ops, w, |ops|, j);
    }
    SlotLayout(placed, m, w, Upper(c), Lower(c));
    FrameCorrectedCrc(config, mode, bytes, ops);
    CheckedPrefix(FrameCorrected(config, mode, bytes, ops), placed[..m], n, w - 2, Poly(config));
  }

  /** A frame that begins with data, its CRC word and zero padding checks to 0 over that prefix. */
  lemma CheckedPrefix(f: seq<bv8>, data: seq<bv8>, n: nat, pad: nat, poly: bv16)
    requires n <= |f|
    requires var c := Crc(data, CrcSeed, poly); f[..n] == data + [Upper(c), Lower(c)] + Zeros(pad)
    ensures Crc(f[..n], CrcSeed, poly) == 0
  {
    Residue(data, CrcSeed, poly, pad);
  }

  /** In a build with ENABLE_CRC_IN, FrameCorrected is the placed opcodes with the CRC of their words after them. */
  lemma FrameCorrectedCrc(config: Config, mode: bv16, bytes: seq<bv8>, ops: seq<bv16>)
    requires Room(config, |ops|, mode) <= |bytes| && config.crcIn
    ensures var w := WordByteLength(mode);
            var placed := Place(bytes, ops, w, |ops|);
            var m := |ops| * w;
            var c := Crc(placed[..m], CrcSeed, Poly(config));
            m + 1 < |bytes| && FrameCorrected(config, mode, bytes, ops) == placed[m := Upper(c)][m + 1 := Lower(c)]
  {
    MulMono(|ops|, |ops| + 1, WordByteLength(mode));
  }

  /** A CRC word written over a zero-padded slot of w bytes: the two CRC bytes, then w - 2 zeros. */
  lemma SlotLayout(placed: seq<bv8>, m: nat, w: nat, u: bv8, l: bv8)
    requires 2 <= w && m + w <= |placed|
    requires forall j :: m + 2 <= j < m + w ==> placed[j] == 0
    ensures placed[m := u][m + 1 := l][..m + w] == placed[..m] + [u, l] + Zeros(w - 2)
  {
  }

  /**
   * As written, the read of MODE in a 24-bit build with ENABLE_CRC_IN and
   * CCITT fails the device's check: the CRC covers the three zero bytes of
   * its own slot, so continuing it over the sent frame leaves 0x4187, not 0.
   */
  lemma AsWrittenFrameRejected()
    ensures var config := Config(true, false, false);
            var mode: bv16 := 0x1100;
            var f := FrameAsWritten(config, mode, Zeros(6), [Opcode(OpcodeRreg, ModeAddress)]);
            Crc(f[..NumberOfBytes(1, mode)], CrcSeed, Poly(config)) == 0x4187
  {
    var f := FrameAsWritten(Config(true, false, false), 0x1100, Zeros(6), [Opcode(OpcodeRreg, ModeAddress)]);
    ReadModeFrame();
    assert NumberOfBytes(1, 0x1100) == 6 && f[..6] == f;
    assert Poly(Config(true, false, false)) == PolyCcitt;
    ReadModeCrcs();
  }

  /** The read of MODE as written: the opcode RREG of address 0x02 (0xA100), then 0xAA98 over the CRC slot. */
  lemma ReadModeFrame()
    ensures FrameAsWritten(Config(true, false, false), 0x1100, Zeros(6), [Opcode(OpcodeRreg, ModeAddress)])
            == [0xA1, 0x00, 0x00, 0xAA, 0x98, 0x00]
  {
    var config := Config(true, false, false);
    var ops := [Opcode(OpcodeRreg, ModeAddress)];
    ReadModeLayout();
    var placed := ReadModePlaced();
    assert placed[..6] == placed;
    ReadModeCrcs();
    var c := Crc(placed[..6], CrcSeed, PolyCcitt);
    assert c == 0xAA98;
    FrameAsWrittenCrc(config, 0x1100, Zeros(6), ops);
    assert FrameAsWritten(config, 0x1100, Zeros(6), ops) == placed[3 := 0xAA][4 := 0x98];
  }

  /** A MODE of 0x1100 selects 24-bit words and the input CRC: six bytes for one opcode. */
  lemma ReadModeLayout()
    ensures WordByteLength(0x1100) == 3 && SpiCrcEnabled(0x1100) && NumberOfBytes(1, 0x1100) == 6
    ensures Poly(Config(true, false, false)) == PolyCcitt
    ensures Upper(0xAA98) == 0xAA && Lower(0xAA98) == 0x98
  {
  }

  /** In a build with ENABLE_CRC_IN, FrameAsWritten is the placed opcodes with the CRC word after them. */
  lemma FrameAsWrittenCrc(config: Config, mode: bv16, bytes: seq<bv8>, ops: seq<bv16>)
    requires Room(config, |ops|, mode) <= |bytes| && config.crcIn
    ensures var w := WordByteLength(mode);
            var placed := Place(bytes, ops, w, |ops|);
            var m := |ops| * w;
            var c := Crc(placed[..NumberOfBytes(|ops|, mode)], CrcSeed, Poly(config));
            m + 1 < |bytes| && FrameAsWritten(config, mode, bytes, ops) == placed[m := Upper(c)][m + 1 := Lower(c)]
  {
    MulMono(|ops|, |ops| + 1, WordByteLength(mode));
  }

  /** The opcode RREG at MODE's address placed in six zero bytes. */
  lemma ReadModePlaced() returns (placed: seq<bv8>)
    ensures placed == Place(Zeros(6), [Opcode(OpcodeRreg, ModeAddress)], 3, 1)
    ensures placed == [0xA1, 0x00, 0x00, 0x00, 0x00, 0x00]
    ensures placed[3 := 0xAA][4 := 0x98] == [0xA1, 0x00, 0x00, 0xAA, 0x98, 0x00]
  {
    var op := Opcode(OpcodeRreg, ModeAddress);
    assert Upper(op) == 0xA1 && Lower(op) == 0x00;
    var zeros: seq<bv8> := [0, 0, 0, 0, 0, 0];
    assert Zeros(6) == zeros;
    placed := Place(zeros, [op], 3, 1);
    assert placed == zeros[0 := 0xA1][1 := 0x00];
  }

  /** The CCITT register after each byte of the MODE read frame. */
  lemma ReadModeBytes()
    ensures Byte(0xFFFF, 0xA1, PolyCcitt) == 0x443B
    ensures Byte(0x443B, 0x00, PolyCcitt) == 0x3340
    ensures Byte(0x3340, 0x00, PolyCcitt) == 0x4630
    ensures Byte(0x4630, 0x00, PolyCcitt) == 0x1802
    ensures Byte(0x1802, 0x00, PolyCcitt) == 0x9139
    ensures Byte(0x9139, 0x00, PolyCcitt) == 0xAA98
    ensures Byte(0x4630, 0xAA, PolyCcitt) == 0x0CA2
    ensures Byte(0x0CA2, 0x98, PolyCcitt) == 0x613D
    ensures Byte(0x613D, 0x00, PolyCcitt) == 0x4187
  {
    assert BitsPerByte == 8;
  }

  /** The CRC of three bytes is three byte steps. */
  lemma Crc3(x: bv8, y: bv8, z: bv8, crc: bv16, poly: bv16)
    ensures Crc([x, y, z], crc, poly) == Byte(Byte(Byte(crc, x, poly), y, poly), z, poly)
  {
    var c1 := Byte(crc, x, poly);
    var c2 := Byte(c1, y, poly);
    assert [x, y, z][1..] == [y, z] && [y, z][1..] == [z] && [z][1..] == [];
    assert Crc([z], c2, poly) == Crc([], Byte(c2, z, poly), poly);
    assert Crc([y, z], c1, poly) == Crc([z], c2, poly);
  }

  /** The CCITT CRCs of the MODE read frame, with the CRC slot zero and filled in. */
  lemma ReadModeCrcs()
    ensures Crc([0xA1, 0x00, 0x00, 0x00, 0x00, 0x00], CrcSeed, PolyCcitt) == 0xAA98
    ensures Crc([0xA1, 0x00, 0x00, 0xAA, 0x98, 0x00], CrcSeed, PolyCcitt) == 0x4187
  {
    ReadModeBytes();
    var head: seq<bv8> := [0xA1, 0x00, 0x00];
    var zeroSlot: seq<bv8> := [0x00, 0x00, 0x00];
    var crcSlot: seq<bv8> := [0xAA, 0x98, 0x00];
    Crc3(0xA1, 0x00, 0x00, CrcSeed, PolyCcitt);
    Crc3(0x00, 0x00, 0x00, 0x4630, PolyCcitt);
    Crc3(0xAA, 0x98, 0x00, 0x4630, PolyCcitt);
    CrcAppend(head, zeroSlot, CrcSeed, PolyCcitt);
    CrcAppend(head, crcSlot, CrcSeed, PolyCcitt);
    assert head + zeroSlot == [0xA1, 0x00, 0x00, 0x00, 0x00, 0x00];
    assert head + crcSlot == [0xA1, 0x00, 0x00, 0xAA, 0x98, 0x00];
  }

  // ---------------------------------------------------------------- data frames

  /**
   * The parse of adsReadDataITcallback(): the response word from bytes 0-1,
   * the six channels from offsets 3, 6, ..., 18 and the CRC word from bytes
   * 21-22.
   */
  function Parse(rx: seq<bv8>): (d: ChannelData)
    requires |rx| >= 8 * BytesPerWord
    ensures -0x80_0000 <= d.channel0 < 0x80_0000 && -0x80_0000 <= d.channel1 < 0x80_0000
    ensures -0x80_0000 <= d.channel2 < 0x80_0000 && -0x80_0000 <= d.channel3 < 0x80_0000
    ensures -0x80_0000 <= d.channel4 < 0x80_0000 && -0x80_0000 <= d.channel5 < 0x80_0000
  {
    SignExtendValue(rx[3], rx[4], rx[5]);
    SignExtendValue(rx[6], rx[7], rx[8]);
    SignExtendValue(rx[9], rx[10], rx[11]);
    SignExtendValue(rx[12], rx[13], rx[14]);
    SignExtendValue(rx[15], rx[16], rx[17]);
    SignExtendValue(rx[18], rx[19], rx[20]);
    ChannelData(Combine(rx[0], rx[1]),
                SignExtend(rx[3], rx[4], rx[5]), SignExtend(rx[6], rx[7], rx[8]),
                SignExtend(rx[9], rx[10], rx[11]), SignExtend(rx[12], rx[13], rx[14]),
                SignExtend(rx[15], rx[16], rx[17]), SignExtend(rx[18], rx[19], rx[20]),
                Combine(rx[21], rx[22]))
  }

  predicate InRange(v: int)
  {
    -0x80_0000 <= v < 0x80_0000
  }

  /** The 24 bytes the converter sends for a frame: 8 words of 3 bytes, 16-bit words padded with a zero byte. */
  function FrameOf(d: ChannelData): (rx: seq<bv8>)
    requires InRange(d.channel0) && InRange(d.channel1) && InRange(d.channel2)
    requires InRange(d.channel3) && InRange(d.channel4) && InRange(d.channel5)
    ensures |rx| == 8 * BytesPerWord
  {
    [Upper(d.response), Lower(d.response), 0]
    + Encode24(d.channel0) + Encode24(d.channel1) + Encode24(d.channel2)
    + Encode24(d.channel3) + Encode24(d.channel4) + Encode24(d.channel5)
    + [Upper(d.crc), Lower(d.crc), 0]
  }

  /** Where FrameOf puts each word. */
  lemma FrameOfSlices(d: ChannelData)
    requires InRange(d.channel0) && InRange(d.channel1) && InRange(d.channel2)
    requires InRange(d.channel3) && InRange(d.channel4) && InRange(d.channel5)
    ensures var rx := FrameOf(d);
            && rx[0] == Upper(d.response) && rx[1] == Lower(d.response)
            && rx[3..6] == Encode24(d.channel0) && rx[6..9] == Encode24(d.channel1)
            && rx[9..12] == Encode24(d.channel2) && rx[12..15] == Encode24(d.channel3)
            && rx[15..18] == Encode24(d.channel4) && rx[18..21] == Encode24(d.channel5)
            && rx[21] == Upper(d.crc) && rx[22] == Lower(d.crc)
  {
  }

  /** A 24-bit word encoded at offset `o` is read back by sign extension. */
  lemma ChannelAt(rx: seq<bv8>, o: nat, v: int)
    requires o + 3 <= |rx| && -0x80_0000 <= v < 0x80_0000 && rx[o..o + 3] == Encode24(v)
    ensures SignExtend(rx[o], rx[o + 1], rx[o + 2]) == v
  {
    var b := Encode24(v);
    assert rx[o] == b[0] && rx[o + 1] == b[1] && rx[o + 2] == b[2];
    SignExtendEncode(v);
  }

  /** Every frame the converter can send is parsed back into the data it carries. */
  lemma ParseFrameOf(d: ChannelData)
    requires InRange(d.channel0) && InRange(d.channel1) && InRange(d.channel2)
    requires InRange(d.channel3) && InRange(d.channel4) && InRange(d.channel5)
    ensures Parse(FrameOf(d)) == d
  {
    var rx := FrameOf(d);
    FrameOfSlices(d);
    ChannelAt(rx, 3, d.channel0);
    ChannelAt(rx, 6, d.channel1);
    ChannelAt(rx, 9, d.channel2);
    ChannelAt(rx, 12, d.channel3);
    ChannelAt(rx, 15, d.channel4);
    ChannelAt(rx, 18, d.channel5);
    CombineSplit(d.response);
    CombineSplit(d.crc);
  }

  /** fCoeffIaDefault and fCoeffUcDefault of the driver: amperes and volts per code. */
  const DriverIaGain: real := 1.2 * (100000.0 / 47000.0) * (1.0 / 51000.0) / 8388608.0
  const DriverUcGain: real := 1.2 * (100000.0 / 50000.0) * (500000000.0 / 180000.0) / 8388608.0

  /** The readings adsReadDataITcallback() stores: anode current and cathode voltage at the driver's gains. */
  function DriverReadings(meas: Regulated, d: ChannelData): Regulated
  {
    meas.(anodeCurrent := Some(DriverIaGain * (d.channel0 as real)),
          cathodeVolt := Some(DriverUcGain * (d.channel1 as real)))
  }

  /** Transmit buffer sizes of adsReadSingleRegister() and adsWriteSingleRegister(). */
  function ReadTxSize(config: Config): nat
  {
    if config.crcIn then 8 else 4
  }

  function WriteTxSize(config: Config): nat
  {
    if config.crcIn then 12 else 8
  }

  /** The driver's state: the register shadow map and the receive buffer of the data transfer. */
  class Ads {
    const config: Config
    const registerMap: array<bv16>
    /** adsDataRx: filled by the SPI transfer of the data frame. */
    const dataRx: array<bv8>

    predicate Valid()
      reads this
    {
      registerMap.Length == NumRegisters && dataRx.Length == 32
    }

    constructor (config: Config)
      ensures Valid() && this.config == config && fresh(registerMap) && fresh(dataRx)
      ensures forall a :: 0 <= a < NumRegisters ==> registerMap[a] == 0
    {
      this.config := config;
      registerMap := new bv16[NumRegisters](_ => 0);
      dataRx := new bv8[32](_ => 0);
    }

    /** The shadow copy of the MODE register, which selects word length and input CRC. */
    function Mode(): bv16
      requires Valid()
      reads this, registerMap
    {
      registerMap[ModeAddress]
    }

    /** registerMapGetValue(): the last value stored for a register. */
    function RegisterMapGetValue(address: nat): bv16
      requires Valid() && address < NumRegisters
      reads this, registerMap
    {
      registerMap[address]
    }

    /**
     * buildSPIarray() as written: fills `byteArray` with the frame of
     * FrameAsWritten and returns the number of bytes to send.
     */
    method BuildSpiArray(opcodes: seq<bv16>, byteArray: array<bv8>) returns (numberOfBytes: nat)
      requires Valid() && |opcodes| < 63
      requires Room(config, |opcodes|, Mode()) <= byteArray.Length
      modifies byteArray
      ensures numberOfBytes == NumberOfBytes(|opcodes|, old(Mode()))
      ensures byteArray[..] == FrameAsWritten(config, old(Mode()), old(byteArray[..]), opcodes)
    {
      numberOfBytes := BuildFrame(config, registerMap[ModeAddress], opcodes, byteArray);
    }

    /** buildSPIarray() with the CRC taken over the opcode words only (FrameCorrected). */
    method BuildSpiArrayCorrected(opcodes: seq<bv16>, byteArray: array<bv8>) returns (numberOfBytes: nat)
      requires Valid() && |opcodes| < 63
      requires Room(config, |opcodes|, Mode()) <= byteArray.Length
      modifies byteArray
      ensures numberOfBytes == NumberOfBytes(|opcodes|, old(Mode()))
      ensures byteArray[..] == FrameCorrected(config, old(Mode()), old(byteArray[..]), opcodes)
    {
      numberOfBytes := BuildFrameCorrected(config, registerMap[ModeAddress], opcodes, byteArray);
    }

    /** The body of buildSPIarray() as written, for a given MODE value. */
    static method BuildFrame(config: Config, mode: bv16, opcodes: seq<bv16>, byteArray: array<bv8>)
      returns (numberOfBytes: nat)
      requires |opcodes| < 63 && Room(config, |opcodes|, mode) <= byteArray.Length
      modifies byteArray
      ensures numberOfBytes == NumberOfBytes(|opcodes|, mode)
      ensures byteArray[..] == FrameAsWritten(config, mode, old(byteArray[..]), opcodes)
    {
      var bytesPerWord := WordByteLength(mode);
      numberOfBytes := NumberOfBytes(|opcodes|, mode);
      MulMono(|opcodes|, |opcodes| + 1, bytesPerWord);
      PlaceOpcodes(opcodes, byteArray, bytesPerWord);
      if config.crcIn {
        var at := |opcodes| * bytesPerWord;
        CrcSlot(|opcodes|, bytesPerWord);
        AppendCrc(byteArray, at, numberOfBytes, Poly(config));
      }
    }

    /** The body of buildSPIarray() with the CRC over the opcode words only. */
    static method BuildFrameCorrected(config: Config, mode: bv16, opcodes: seq<bv16>, byteArray: array<bv8>)
      returns (numberOfBytes: nat)
      requires |opcodes| < 63 && Room(config, |opcodes|, mode) <= byteArray.Length
      modifies byteArray
      ensures numberOfBytes == NumberOfBytes(|opcodes|, mode)
      ensures byteArray[..] == FrameCorrected(config, mode, old(byteArray[..]), opcodes)
    {
      var bytesPerWord := WordByteLength(mode);
      numberOfBytes := NumberOfBytes(|opcodes|, mode);
      MulMono(|opcodes|, |opcodes| + 1, bytesPerWord);
      PlaceOpcodes(opcodes, byteArray, bytesPerWord);
      if config.crcIn {
        var at := |opcodes| * bytesPerWord;
        CrcSlot(|opcodes|, bytesPerWord);
        AppendCrc(byteArray, at, at, Poly(config));
      }
    }

    /** The CRC of the first `count` bytes written, MSB first, at offset `at`. */
    static method AppendCrc(byteArray: array<bv8>, at: nat, count: nat, poly: bv16)
      requires at + 1 < byteArray.Length && count <= byteArray.Length && count < 256
      modifies byteArray
      ensures var c := Crc(old(byteArray[..])[..count], CrcSeed, poly);
              byteArray[..] == old(byteArray[..])[at := Upper(c)][at + 1 := Lower(c)]
    {
      var crcWord := CalculateCrc(byteArray[..], count, CrcSeed, poly);
      byteArray[at] := Upper(crcWord);
      byteArray[at + 1] := Lower(crcWord);
    }

    /** The opcode loop of buildSPIarray(). */
    static method PlaceOpcodes(opcodes: seq<bv16>, byteArray: array<bv8>, bytesPerWord: nat)
      requires 2 <= bytesPerWord && |opcodes| * bytesPerWord <= byteArray.Length
      modifies byteArray
      ensures byteArray[..] == Place(old(byteArray[..]), opcodes, bytesPerWord, |opcodes|)
    {
      var i := 0;
      while i < |opcodes|
        invariant 0 <= i <= |opcodes|
        invariant byteArray[..] == Place(old(byteArray[..]), opcodes, bytesPerWord, i)
      {
        MulMono(i + 1, |opcodes|, bytesPerWord);
        byteArray[i * bytesPerWord + 0] := Upper(opcodes[i]);
        byteArray[i * bytesPerWord + 1] := Lower(opcodes[i]);
        i := i + 1;
      }
    }

    /**
     * adsReadSingleRegister(): sends RREG for `address` (the frame in
     * `dataTx`, of which `numberOfBytes` bytes go out) and stores the
     * device's answer `response` in the shadow map.
     */
    method ReadSingleRegister(address: nat, response: bv16) returns (value: bv16, dataTx: seq<bv8>, numberOfBytes: nat)
      requires Valid() && address < NumRegisters
      modifies registerMap
      ensures value == response
      ensures registerMap[..] == old(registerMap[..])[address := response]
      ensures dataTx == FrameCorrected(config, old(Mode()), Zeros(ReadTxSize(config)), [Opcode(OpcodeRreg, address)])
      ensures numberOfBytes == NumberOfBytes(1, old(Mode()))
    {
      var tx := new bv8[ReadTxSize(config)](_ => 0);
      assert tx[..] == Zeros(ReadTxSize(config));
      var opcode := Opcode(OpcodeRreg, address);
      numberOfBytes := BuildSpiArrayCorrected([opcode], tx);
      dataTx := tx[..];
      registerMap[address] := response;
      value := registerMap[address];
    }

    /**
     * adsWriteSingleRegister(): a MODE value is first enforced; WREG and the
     * value are sent, the value is stored, then the register is read back
     * (with the frame layout the new MODE selects) and the read-back value
     * `readBack` replaces it in the shadow map.
     */
    method WriteSingleRegister(address: nat, data: bv16, readBack: bv16)
      returns (stored: bv16, writeTx: seq<bv8>, writeBytes: nat, readTx: seq<bv8>, readBytes: nat)
      requires Valid() && address < NumRegisters
      modifies registerMap
      ensures stored == if address == ModeAddress then Enforce(config, data) else data
      ensures writeTx == FrameCorrected(config, old(Mode()), Zeros(WriteTxSize(config)),
                                        [Opcode(OpcodeWreg, address), stored])
      ensures writeBytes == NumberOfBytes(2, old(Mode()))
      ensures var modeAfter := if address == ModeAddress then stored else old(Mode());
              readTx == FrameCorrected(config, modeAfter, Zeros(ReadTxSize(config)), [Opcode(OpcodeRreg, address)])
              && readBytes == NumberOfBytes(1, modeAfter)
      ensures registerMap[..] == old(registerMap[..])[address := readBack]
    {
      stored := data;
      if address == ModeAddress {
        stored := Enforce(config, stored);
      }
      var tx := new bv8[WriteTxSize(config)](_ => 0);
      assert tx[..] == Zeros(WriteTxSize(config));
      writeBytes := BuildSpiArrayCorrected([Opcode(OpcodeWreg, address), stored], tx);
      writeTx := tx[..];
      registerMap[address] := stored;
      assert Mode() == if address == ModeAddress then stored else old(Mode());
      var value;
      value, readTx, readBytes := ReadSingleRegister(address, readBack);
    }

    /**
     * adsReadDataITcallback(): decodes the received frame into `sys.adsData`,
     * converts channel 0 to the anode current and channel 1 to the cathode
     * voltage with the driver's default gains, and reports no CRC error.
     */
    method ReadDataCallback(sys: SystemState) returns (crcError: bool)
      requires Valid()
      modifies sys`adsData, sys`meas
      ensures sys.adsData == Parse(dataRx[..])
      ensures sys.meas == DriverReadings(old(sys.meas), sys.adsData)
      ensures !crcError
    {
      var rx := dataRx[..];
      sys.adsData := Parse(rx);
      sys.meas := DriverReadings(sys.meas, sys.adsData);
      crcError := false;
    }
  }
}
