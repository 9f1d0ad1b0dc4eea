/** ITU-T G.711 mu-law encoding of one 16-bit linear PCM sample, as
    `linearToMuLaw` in src/ffmpeg-streamer.js computes it.

    `Encode` is the reference definition (sign, segment, quantisation step,
    final complement) and carries the code's range and sign properties;
    `LinearToMuLaw` is the source's bit-manipulating procedure with its
    segment-search loop, proved equal to `Encode`.  The lemmas state the
    clipping, the zero code and the segment ordering. */
module MuLaw {

  const SIGN_BIT: int := 0x80
  const QUANT_MASK: int := 0xF
  const SEG_SHIFT: int := 4
  const BIAS: int := 0x84
  const CLIP: int := 32635

  predicate IsPcm16(x: int)
  {
    -32768 <= x <= 32767
  }

  function Pow2(n: nat): (p: nat)
    ensures p >= 1
  {
    if n == 0 then 1 else 2 * Pow2(n - 1)
  }

  /** The clipped and biased magnitude that the segment search inspects. */
  function Biased(sample: int): int
  {
    var m := if sample < 0 then -sample else sample;
    (if m > CLIP then CLIP else m) + BIAS
  }

  /** G.711 segment (exponent) of a biased magnitude: the position of its
      highest set bit among bits 7..14, counted from bit 7. */
  function Segment(v: int): (e: int)
    ensures 0 <= e <= 7
  {
    if v >= 0x4000 then 7
    else if v >= 0x2000 then 6
    else if v >= 0x1000 then 5
    else if v >= 0x800 then 4
    else if v >= 0x400 then 3
    else if v >= 0x200 then 2
    else if v >= 0x100 then 1
    else 0
  }

  /** The 4-bit quantisation value inside the segment. */
  function Mantissa(v: int): int
    requires v >= 0
  {
    (v / Pow2(Segment(v) + 3)) % 16
  }

  /** Sign, segment and mantissa packed into one byte before the complement. */
  function Packed(sample: int): int
  {
    var v := Biased(sample);
    (if sample < 0 then SIGN_BIT else 0) + Segment(v) * 16 + Mantissa(v)
  }

  /** The mu-law code of a 16-bit sample: all bits of the packed byte inverted. */
  function Encode(sample: int): (code: int)
    requires IsPcm16(sample)
    ensures 0 <= code <= 255
    ensures code < 0x80 <==> sample < 0
  {
    0xFF - Packed(sample)
  }

  // The bit operations of the source, on JavaScript's 32-bit integers.

  /** `(x >> 8) & 0x80`: the arithmetic shift is a floor division, and bit 7 of
      a two's-complement value is bit 7 of its residue modulo 256. */
  function SignField(x: int): int
  {
    ((x / 256) % 256) / 128 * 128
  }

  /** `v & mask` is non-zero, for a single-bit mask. */
  predicate BitSet(v: int, mask: int)
    requires mask >= 1
  {
    (v / mask) % 2 == 1
  }

  /** `~b & 0xFF` for a 32-bit integer `b`: `~b` is `-b - 1`, and masking with
      0xFF keeps its residue modulo 256. */
  function ComplementByte(b: int): int
  {
    (-b - 1) % 256
  }

  lemma SignFieldOfPcm16(x: int)
    requires IsPcm16(x)
    ensures SignField(x) == if x < 0 then SIGN_BIT else 0
  {
    var q := x / 256;
    assert -128 <= q < 128;
    if x < 0 {
      assert q < 0;
      assert q % 256 == q + 256;
    } else {
      assert q % 256 == q;
    }
  }

  lemma Pow2Table(e: int)
    requires 0 <= e <= 7
    ensures Pow2(e + 7) == [0x80, 0x100, 0x200, 0x400, 0x800, 0x1000, 0x2000, 0x4000][e]
    ensures Pow2(e + 8) == 2 * Pow2(e + 7)
    ensures Pow2(e + 3) == [8, 16, 32, 64, 128, 256, 512, 1024][e]
  {
    assert Pow2(3) == 8 && Pow2(7) == 0x80 && Pow2(8) == 0x100;
    if e >= 1 { assert Pow2(4) == 16 && Pow2(9) == 0x200; }
    if e >= 2 { assert Pow2(5) == 32 && Pow2(10) == 0x400; }
    if e >= 3 { assert Pow2(6) == 64 && Pow2(11) == 0x800; }
    if e >= 4 { assert Pow2(12) == 0x1000; }
    if e >= 5 { assert Pow2(13) == 0x2000; }
    if e >= 6 { assert Pow2(14) == 0x4000; }
    if e >= 7 { assert Pow2(15) == 0x8000; }
  }

  /** A value below twice a power of two has that bit set exactly when it is at
      least that power. */
  lemma BitSetBelowDouble(v: int, mask: int)
    requires mask >= 1 && 0 <= v < 2 * mask
    ensures BitSet(v, mask) <==> v >= mask
  {
    var q, r := v / mask, v % mask;
    assert v == q * mask + r && 0 <= r < mask;
    assert q >= 2 ==> q * mask >= 2 * mask;
    assert q < 0 ==> q * mask <= -mask;
    assert 0 <= q <= 1;
    assert q == 0 ==> v < mask;
    assert q == 1 ==> v >= mask;
  }

  lemma SegmentOfBounds(v: int, e: int)
    requires 0 <= e <= 7 && Pow2(e + 7) <= v < Pow2(e + 8)
    ensures Segment(v) == e
  {
    Pow2Table(e);
  }

  /** After the bias, the magnitude lies in [0x84, 0x7FFF]: always bit 7 or a
      higher bit is set, so the segment search always succeeds. */
  lemma BiasedRange(sample: int)
    requires IsPcm16(sample)
    ensures BIAS <= Biased(sample) <= 0x7FFF
  {
  }

  /** linearToMuLaw (src/ffmpeg-streamer.js:22-41), step by step. */
  method LinearToMuLaw(sample: int) returns (code: int)
    requires IsPcm16(sample)
    ensures code == Encode(sample)
  {
    var sign := SignField(sample);
    var s := sample;
    if s < 0 { s := -s; }
    if s > CLIP { s := CLIP; }
    s := s + BIAS;

    var exponent := 7;
    var mask := 0x4000;
    // `found` stands for the source's `break` out of the segment search.
    var found := false;
    var i := 0;
    assert Pow2(14) == 0x4000;
    while i < 8 && !found
      invariant 0 <= i <= 8
      invariant !found ==> mask == Pow2(14 - i) && s < 2 * mask
      invariant found ==> 1 <= i && exponent == 8 - i && Pow2(exponent + 7) <= s < Pow2(exponent + 8)
      invariant s == Biased(sample)
      decreases 8 - i
    {
      BitSetBelowDouble(s, mask);
      if BitSet(s, mask) {
        exponent := 7 - i;
        Pow2Table(exponent);
        found := true;
      } else {
        mask := mask / 2;
      }
      i := i + 1;
    }
    assert Pow2(6) == 64;
    assert found;
    SegmentOfBounds(s, exponent);

    // `& 0x0F` on a non-negative value keeps its residue modulo 16, and the
    // three fields occupy disjoint bits, so `|` adds them.
    var mantissa := (s / Pow2(exponent + 3)) % (QUANT_MASK + 1);
    var b := sign + exponent * Pow2(SEG_SHIFT) + mantissa;
    code := ComplementByte(b);
    PackedFields(sample, exponent, mantissa);
  }

  /** The fields the procedure computes are those of the reference encoding. */
  lemma PackedFields(sample: int, exponent: int, mantissa: int)
    requires IsPcm16(sample) && exponent == Segment(Biased(sample))
    requires mantissa == (Biased(sample) / Pow2(exponent + 3)) % (QUANT_MASK + 1)
    ensures ComplementByte(SignField(sample) + exponent * Pow2(SEG_SHIFT) + mantissa) == Encode(sample)
  {
    SignFieldOfPcm16(sample);
    assert Pow2(SEG_SHIFT) == 16;
    assert 0 <= Packed(sample) <= 255;
  }

  /** 0 encodes to 0xFF. */
  lemma EncodeZero()
    ensures Encode(0) == 0xFF
  {
    assert Biased(0) == 0x84;
    assert Pow2(3) == 8;
  }

  /** Magnitudes at or above CLIP (including -32768) encode exactly as +-CLIP. */
  lemma EncodeClips(sample: int)
    requires IsPcm16(sample)
    ensures sample >= CLIP ==> Encode(sample) == Encode(CLIP)
    ensures sample <= -CLIP ==> Encode(sample) == Encode(-CLIP)
  {
  }

  /** Inside one segment the mantissa is the quantisation index above the
      segment's base; across segments the packed value grows with the segment. */
  lemma QuantMonotone(v: int, w: int)
    requires BIAS <= v <= w <= 0x7FFF
    ensures Segment(v) * 16 + Mantissa(v) <= Segment(w) * 16 + Mantissa(w)
  {
    var e, f := Segment(v), Segment(w);
    MantissaIndex(v);
    MantissaIndex(w);
    if e == f {
      DivMonotone(v, w, Pow2(e + 3));
    }
  }

  /** The mantissa is the quantisation index above the segment's base, one of 16. */
  lemma MantissaIndex(v: int)
    requires BIAS <= v <= 0x7FFF
    ensures 16 <= v / Pow2(Segment(v) + 3) < 32
    ensures Mantissa(v) == v / Pow2(Segment(v) + 3) - 16
  {
    var e := Segment(v);
    Pow2Table(e);
    var d := Pow2(e + 3);
    assert 16 * d == Pow2(e + 7) && Pow2(e + 7) <= v < 2 * Pow2(e + 7);
    DivBounds(v, d, 16);
  }

  /** A value in [k*d, 2*k*d) has a quotient by d in [k, 2*k). */
  lemma DivBounds(v: int, d: int, k: int)
    requires d >= 1 && k >= 0 && k * d <= v < 2 * k * d
    ensures k <= v / d < 2 * k
  {
    var q, r := v / d, v % d;
    assert v == q * d + r && 0 <= r < d;
    assert q < k ==> q * d <= (k - 1) * d;
    assert q >= 2 * k ==> q * d >= 2 * k * d;
  }

  lemma DivMonotone(v: int, w: int, d: int)
    requires 0 <= v <= w && d >= 1
    ensures v / d <= w / d
  {
    var p, q := v / d, w / d;
    assert v == p * d + v % d && w == q * d + w % d;
    assert p > q ==> p * d >= (q + 1) * d;
  }

  /** Segment ordering under the final complement: a larger non-negative
      sample never gets a larger code, and likewise a more negative sample. */
  lemma EncodeMonotone(a: int, b: int)
    requires IsPcm16(a) && IsPcm16(b)
    ensures 0 <= a <= b ==> Encode(a) >= Encode(b)
    ensures a <= b < 0 ==> Encode(a) <= Encode(b)
  {
    if 0 <= a <= b {
      QuantMonotone(Biased(a), Biased(b));
    }
    if a <= b < 0 {
      QuantMonotone(Biased(b), Biased(a));
    }
  }
}
