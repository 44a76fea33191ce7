/** What a packed row means once the expert layer's scale decoder is the kernel's own bit trick. */
module MoeDecode {
  import opened Basics
  import opened NumberFormats
  import opened MoeMath

  /** The float32 value of half a block scale. */
  function HalfValue(s: uint8): real { Magnitude(E8m0Half(s)) as real / Pow2(149) as real }

  /** The E2M1 value of a code. */
  function E2M1(code: nat): real
    requires code < 16
  {
    TwiceE2M1(code) as real / 2.0
  }

  /** 2^(s - 127). */
  function Scale(s: uint8): real { Pow2(s) as real / Pow2(127) as real }

  lemma RealTimes(a: int, c: int)
    ensures (a * c) as real == a as real * c as real
  {
  }

  lemma Halved(m: real, a: real, b: real, c: real)
    requires 2.0 * m == a * c && b > 0.0 && c > 0.0
    ensures m / (b * c) == a / b / 2.0
  {
    var q := a / b / 2.0;
    assert q * 2.0 * b == a;
    assert q * (b * c) * 2.0 == a * c;
  }

  lemma HalvedUnits(m: nat, p: nat, a: nat, b: nat, c: nat)
    requires 2 * m == a * c && p == b * c && b > 0 && c > 0 && p > 0
    ensures m as real / p as real == a as real / b as real / 2.0
  {
    RealTimes(a, c);
    RealTimes(b, c);
    Halved(m as real, a as real, b as real, c as real);
  }

  lemma HalfValueExact(s: uint8)
    ensures s < 2 ==> HalfValue(s) == 0.0
    ensures s >= 2 ==> HalfValue(s) == Scale(s) / 2.0
  {
    hide Pow2, Magnitude, E8m0Half;
    HalfScale(s);
    PowAdd(127, 22);
    PowAdd(s, 22);
    if s >= 2 { HalvedUnits(Magnitude(E8m0Half(s)), Pow2(149), Pow2(s), Pow2(127), Pow2(22)); }
  }

  lemma HalfTimes(t: real, x: real)
    ensures Mul(t, x / 2.0) == t / 2.0 * x && Mul(t, 0.0) == 0.0
  {
  }

  /** The decoded element of a code under a scale byte. */
  function Element(code: nat, s: uint8): real
    requires code < 16
  {
    if s < 2 then 0.0 else E2M1(code) * Scale(s)
  }

  lemma CodeExact(code: nat, s: uint8)
    requires code < 16
    ensures Mul(LUT[code] as real, HalfValue(s)) == Element(code, s)
  {
    hide HalfValue, Scale, TwiceE2M1, Mul;
    HalfValueExact(s);
    LutIsE2M1(code);
    HalfTimes(LUT[code] as real, Scale(s));
  }

  /** With that decoder every element of a packed row is its E2M1 value times 2^(s - 127), for scale bytes 2 to 254;
      bytes 0 and 1 make it zero. */
  lemma RowExact(ar: Arith, w: seq<uint8>, sc: seq<uint8>, groups: nat, i: nat)
    requires PackedRow(w, sc, groups) && i < groups * 32 && ar.half(sc[i / 32]) == HalfValue(sc[i / 32])
    ensures Row(ar, w, sc, groups)[i] == Element(Nibble(w, i), sc[i / 32])
  {
    hide HalfValue, Element, Mul, Nibble;
    CodeExact(Nibble(w, i), sc[i / 32]);
  }
}
