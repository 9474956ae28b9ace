/**
 * The CRC-8 that protects the inter-controller frame (Core/Src/communication.c)
 * and the configuration block in flash (Core/Src/utilities.c): the Dallas/Maxim
 * polynomial x^8 + x^5 + x^4 + 1, processed least significant bit first
 * (reflected constant 0x8C), register seeded with 0, no final XOR.
 */
module Crc8 {

  /** One bit step: shift right, XOR 0x8C when the outgoing bit differs from the data bit. */
  function Bit(crc: bv8, extract: bv8): bv8
  {
    if (crc ^ extract) & 1 == 1 then (crc >> 1) ^ 0x8C else crc >> 1
  }

  /** `k` more bit steps, the data bits still to be used in the low bits of `extract`. */
  function Bits(crc: bv8, extract: bv8, k: nat): bv8
    decreases k
  {
    if k == 0 then crc else Bits(Bit(crc, extract), extract >> 1, k - 1)
  }

  /** All eight bit steps of one byte. */
  function Byte(crc: bv8, b: bv8): bv8
  {
    Bits(crc, b, 8)
  }

  /** The CRC register after feeding `data` into a register holding `crc`. */
  function Update(crc: bv8, data: seq<bv8>): bv8
    decreases |data|
  {
    if |data| == 0 then crc else Update(Byte(crc, data[0]), data[1..])
  }

  /** The checksum the firmware computes over `data`. */
  function Checksum(data: seq<bv8>): bv8
  {
    Update(0, data)
  }

  /** Feeding two blocks one after the other is feeding their concatenation. */
  lemma {:induction false} UpdateAppend(crc: bv8, a: seq<bv8>, b: seq<bv8>)
    decreases |a|
    ensures Update(crc, a + b) == Update(Update(crc, a), b)
  {
    if |a| > 0 {
      assert (a + b)[0] == a[0];
      assert (a + b)[1..] == a[1..] + b;
      UpdateAppend(Byte(crc, a[0]), a[1..], b);
    } else {
      assert a + b == b;
    }
  }

  /** Feeding a block and then one more byte. */
  lemma UpdateSnoc(crc: bv8, a: seq<bv8>, x: bv8)
    ensures Update(crc, a + [x]) == Byte(Update(crc, a), x)
  {
    UpdateAppend(crc, a, [x]);
    assert Update(Update(crc, a), [x]) == Update(Byte(Update(crc, a), x), []);
  }

  /** `k` right shifts by one. */
  function Shr(e: bv8, k: nat): bv8
    decreases k
  {
    if k == 0 then e else Shr(e >> 1, k - 1)
  }

  lemma ShrByte(e: bv8)
    ensures Shr(e, 8) == 0
  {
    var e8 := e >> 1 >> 1 >> 1 >> 1 >> 1 >> 1 >> 1 >> 1;
    assert e8 == 0;
    assert Shr(e, 8) == Shr(e >> 1 >> 1 >> 1 >> 1 >> 1 >> 1 >> 1, 1);
  }

  /** One step with data bit `e` is one step with a zero data bit from `crc ^ e`. */
  lemma BitFold(crc: bv8, e: bv8)
    ensures Bit(crc, e) ^ (e >> 1) == Bit(crc ^ e, 0)
    ensures (0 as bv8) >> 1 == 0
  {
  }

  /**
   * The data bits can be folded into the register first: running `k` steps with
   * data `e` equals running them with zero data from `crc ^ e`, up to the data
   * bits not consumed yet.
   */
  lemma {:induction false} FoldData(crc: bv8, e: bv8, k: nat)
    decreases k
    ensures Bits(crc, e, k) == Bits(crc ^ e, 0, k) ^ Shr(e, k)
  {
    if k > 0 {
      FoldData(Bit(crc, e), e >> 1, k - 1);
      BitFold(crc, e);
    }
  }

  /** A zero register fed zero bits stays zero. */
  lemma {:induction false} ZeroBits(k: nat)
    decreases k
    ensures Bits(0, 0, k) == 0
  {
    if k > 0 {
      assert Bit(0, 0) == 0;
      assert (0 as bv8) >> 1 == 0;
      ZeroBits(k - 1);
    }
  }

  /** A byte step only depends on the register XOR the data byte. */
  lemma ByteFolded(crc: bv8, b: bv8)
    ensures Byte(crc, b) == Byte(crc ^ b, 0)
  {
    FoldData(crc, b, 8);
    FoldData(crc ^ b, 0, 8);
    ShrByte(b);
    ShrByte(0);
  }

  /**
   * Appending the checksum to the data it protects leaves a zero register:
   * the receiving side's check `crc8(data) == stored` and the residue test agree.
   */
  lemma Residue(data: seq<bv8>)
    ensures Update(0, data + [Checksum(data)]) == 0
  {
    UpdateSnoc(0, data, Checksum(data));
    ByteFolded(Checksum(data), Checksum(data));
    ZeroBits(8);
  }

  /** Undo one bit step: the step is a bijection on the register. */
  function Unbit(o: bv8, extract: bv8): bv8
  {
    if o & 0x80 == 0x80 then ((o ^ 0x8C) << 1) | ((extract & 1) ^ 1) else (o << 1) | (extract & 1)
  }

  lemma BitInverse(c: bv8, e: bv8)
    ensures Unbit(Bit(c, e), e) == c
  {
  }

  /** Distinct registers stay distinct after the same bit steps. */
  lemma {:induction false} BitsInjective(c1: bv8, c2: bv8, e: bv8, k: nat)
    requires c1 != c2
    decreases k
    ensures Bits(c1, e, k) != Bits(c2, e, k)
  {
    if k > 0 {
      BitInverse(c1, e);
      BitInverse(c2, e);
      BitsInjective(Bit(c1, e), Bit(c2, e), e >> 1, k - 1);
    }
  }

  /** Distinct data bytes leave distinct registers. */
  lemma ByteInjectiveInData(c: bv8, b1: bv8, b2: bv8)
    requires b1 != b2
    ensures Byte(c, b1) != Byte(c, b2)
  {
    ByteFolded(c, b1);
    ByteFolded(c, b2);
    assert c ^ b1 != c ^ b2;
    BitsInjective(c ^ b1, c ^ b2, 0, 8);
  }

  /** Distinct registers stay distinct after the same block. */
  lemma {:induction false} UpdateInjective(c1: bv8, c2: bv8, data: seq<bv8>)
    requires c1 != c2
    decreases |data|
    ensures Update(c1, data) != Update(c2, data)
  {
    if |data| > 0 {
      BitsInjective(c1, c2, data[0], 8);
      UpdateInjective(Byte(c1, data[0]), Byte(c2, data[0]), data[1..]);
    }
  }

  /**
   * Any corruption confined to a single byte of a block, at any position,
   * changes the checksum.
   */
  lemma SingleByteErrorDetected(prefix: seq<bv8>, x: bv8, y: bv8, suffix: seq<bv8>)
    requires x != y
    ensures Checksum(prefix + [x] + suffix) != Checksum(prefix + [y] + suffix)
  {
    var c := Update(0, prefix);
    UpdateAppend(0, prefix + [x], suffix);
    UpdateAppend(0, prefix + [y], suffix);
    UpdateSnoc(0, prefix, x);
    UpdateSnoc(0, prefix, y);
    ByteInjectiveInData(c, x, y);
    UpdateInjective(Byte(c, x), Byte(c, y), suffix);
  }

  /** crc8(): the byte loop with its inner eight-step bit loop. */
  method Compute(data: seq<bv8>) returns (crc: bv8)
    ensures crc == Checksum(data)
  {
    crc := 0;
    var i := 0;
    while i < |data|
      invariant 0 <= i <= |data|
      invariant crc == Update(0, data[..i])
    {
      var extract := data[i];
      ghost var target := Byte(crc, data[i]);
      var tempI := 8;
      while tempI > 0
        invariant 0 <= tempI <= 8
        invariant Bits(crc, extract, tempI) == target
      {
        var sum := (crc ^ extract) & 0x01;
        crc := crc >> 1;
        if sum == 1 {
          crc := crc ^ 0x8C;
        }
        extract := extract >> 1;
        tempI := tempI - 1;
      }
      UpdateSnoc(0, data[..i], data[i]);
      assert data[..i + 1] == data[..i] + [data[i]];
      i := i + 1;
    }
    assert data[..i] == data;
  }
}
