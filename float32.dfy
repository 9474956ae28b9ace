/**
 * The value of a little-endian IEEE-754 binary32 image, as the Cortex-M4 stores
 * a `float` in memory. Used where the firmware copies a float out of a byte
 * buffer with `memcpy`.
 */
module Float32 {
  import opened Typedefs

  /** 2 to an integer power. */
  function Pow2(n: int): (r: real)
    ensures r > 0.0
    decreases if n >= 0 then n else -n
  {
    if n == 0 then 1.0 else if n > 0 then 2.0 * Pow2(n - 1) else Pow2(n + 1) / 2.0
  }

  /** The biased exponent field: bits 30..23. */
  function Exponent(b: seq<bv8>): (e: nat)
    requires |b| == 4
    ensures e < 256
  {
    ((b[3] & 0x7F) as nat) * 2 + ((b[2] >> 7) as nat)
  }

  /** The fraction field: bits 22..0. */
  function Fraction(b: seq<bv8>): (m: nat)
    requires |b| == 4
    ensures m < 0x80_0000
  {
    ((b[2] & 0x7F) as nat) * 0x1_0000 + (b[1] as nat) * 0x100 + (b[0] as nat)
  }

  /** The magnitude encoded by the exponent and fraction fields (finite patterns only). */
  function Magnitude(b: seq<bv8>): (v: real)
    requires |b| == 4 && Exponent(b) < 255
    ensures v >= 0.0
    ensures v == 0.0 <==> Exponent(b) == 0 && Fraction(b) == 0
  {
    var e := Exponent(b);
    var m := Fraction(b);
    if e == 0 then (m as real) * Pow2(-149)
    else ((0x80_0000 + m) as real) * Pow2(e - 150)
  }

  /**
   * The value of an image: `None` exactly for the all-ones exponent (NaN and
   * the infinities), otherwise the signed magnitude, negative only when the
   * sign bit is set.
   */
  function Decode(b: seq<bv8>): (r: Float)
    requires |b| == 4
    ensures r.None? <==> Exponent(b) == 255
    ensures r.Some? && r.value < 0.0 ==> b[3] & 0x80 == 0x80
    ensures r.Some? && r.value > 0.0 ==> b[3] & 0x80 == 0
  {
    if Exponent(b) == 255 then None
    else if b[3] & 0x80 == 0x80 then Some(-Magnitude(b))
    else Some(Magnitude(b))
  }

  /** An all-zero image (what `memset` leaves behind) is the value 0. */
  lemma DecodeZero()
    ensures Decode([0, 0, 0, 0]) == Some(0.0)
  {
    var z: seq<bv8> := [0, 0, 0, 0];
    assert Exponent(z) == 0 && Fraction(z) == 0;
  }
}
