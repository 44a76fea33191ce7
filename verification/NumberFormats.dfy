/** The bit-level number formats of the CPU expert kernel: float32 to bfloat16 and back, and the
    MXFP4 element and scale tables. Bit patterns are natural numbers. */
module NumberFormats {
  import opened Basics

  type uint8 = n: nat | n < 0x100
  type uint16 = n: nat | n < 0x1_0000
  type uint32 = n: nat | n < 0x1_0000_0000

  const SIGN: nat := 0x8000_0000
  const MANTISSA: nat := 0x80_0000   // 2^23
  const HALFWORD: nat := 0x1_0000    // 2^16

  function Exponent(u: uint32): nat { u / MANTISSA % 256 }

  predicate Finite(u: uint32) { Exponent(u) != 255 }

  predicate IsNaN(u: uint32) { Exponent(u) == 255 && u % MANTISSA != 0 }

  function F32ToBf16(u: uint32): uint16 {
    if Exponent(u) == 255 then u / HALFWORD
    else
      var lsb := u / HALFWORD % 2;
      (u + 0x7fff + lsb) % 0x1_0000_0000 / HALFWORD
  }

  function Bf16ToF32(h: uint16): uint32 { h * HALFWORD }

  // ----- rounding of the pattern

  /** n is u / d rounded to the nearest integer, ties to the even one. */
  predicate NearestEven(n: nat, u: nat, d: nat) {
    && 2 * u - d <= 2 * n * d <= 2 * u + d
    && (2 * n * d == 2 * u - d || 2 * n * d == 2 * u + d ==> n % 2 == 0)
  }

  lemma RoundsPattern(u: uint32)
    requires Finite(u)
    ensures NearestEven(F32ToBf16(u), u, HALFWORD)
    ensures u + 0x7fff + 1 < 0x1_0000_0000
  {
  }

  /** Widening and rounding back is the identity on every bfloat16 pattern, NaN payloads included. */
  lemma RoundUndoesWiden(h: uint16)
    ensures F32ToBf16(Bf16ToF32(h)) == h
  {
  }

  /** A NaN stays a NaN exactly when a payload bit survives in the upper half; otherwise it turns into an infinity. */
  lemma NaNSurvives(u: uint32)
    requires IsNaN(u)
    ensures IsNaN(Bf16ToF32(F32ToBf16(u))) <==> u / HALFWORD % 128 != 0
  {
  }

  // ----- rounding of the value

  /** 2^149 times the magnitude of a pattern without its sign bit; an infinity counts as 2^128. */
  function Magnitude(m: nat): nat {
    var e, f := m / MANTISSA, m % MANTISSA;
    if e == 0 then f else (MANTISSA + f) * Pow2(e - 1)
  }

  function Signed(negative: bool, magnitude: nat): int {
    if negative then -(magnitude as int) else magnitude
  }

  function Value(u: uint32): int { Signed(u >= SIGN, Magnitude(u % SIGN)) }

  /** Setting the sign bit negates the value, and values below it are never negative. */
  lemma SignNegates(u: uint32)
    requires u < SIGN
    ensures Value(u) >= 0 && Value(u + SIGN) == -Value(u)
  {
    hide Magnitude;
  }

  function Abs(x: int): nat { if x < 0 then -x else x }

  /** Distance between neighbours in the binade of e. */
  function Ulp(e: nat): (r: nat)
    ensures r >= 1
  {
    if e == 0 then 1 else
      Pow2(e - 1)
  }

  lemma MagnitudeStep(m: nat)
    ensures Magnitude(m + 1) == Magnitude(m) + Ulp(m / MANTISSA)
  {
    var e, f := m / MANTISSA, m % MANTISSA;
    if f + 1 < MANTISSA {
      assert (m + 1) / MANTISSA == e && (m + 1) % MANTISSA == f + 1;
      if e > 0 { Distribute(MANTISSA + f, 1, Pow2(e - 1)); }
    } else {
      assert (m + 1) / MANTISSA == e + 1 && (m + 1) % MANTISSA == 0;
      if e > 0 {
        Distribute(MANTISSA + f, 1, Pow2(e - 1));
        assert Pow2(e) == 2 * Pow2(e - 1);
      }
    }
  }

  lemma {:induction false} MagnitudeIncreases(m: nat, n: nat)
    requires m <= n
    ensures Magnitude(m) <= Magnitude(n)
    ensures m < n ==> Magnitude(m) < Magnitude(n)
    decreases n - m
  {
    if m < n {
      MagnitudeIncreases(m, n - 1);
      MagnitudeStep(n - 1);
    }
  }

  /** Between two neighbouring bfloat16 patterns the value is linear in the float32 pattern,
      also across the top of a binade. */
  lemma {:induction false} MagnitudeLinear(q: nat, t: nat)
    requires t <= HALFWORD
    ensures Magnitude(q * HALFWORD + t) == Magnitude(q * HALFWORD) + t * Ulp(q / 128)
  {
    if t > 0 {
      MagnitudeLinear(q, t - 1);
      MagnitudeStep(q * HALFWORD + t - 1);
      assert (q * HALFWORD + t - 1) / MANTISSA == q / 128;
      Distribute(t - 1, 1, Ulp(q / 128));
    }
  }

  /** The two bfloat16 neighbours of m, and how far its value is from theirs. */
  lemma Neighbours(m: nat)
    ensures var q, r, s := m / HALFWORD, m % HALFWORD, Ulp(m / HALFWORD / 128);
            && Magnitude(m) - Magnitude(q * HALFWORD) == r * s
            && Magnitude((q + 1) * HALFWORD) - Magnitude(m) == (HALFWORD - r) * s
  {
    var q, r, s := m / HALFWORD, m % HALFWORD, Ulp(m / HALFWORD / 128);
    MagnitudeLinear(q, r);
    MagnitudeLinear(q, HALFWORD);
    Distribute(r, HALFWORD - r, s);
    assert m == q * HALFWORD + r && q * HALFWORD + HALFWORD == (q + 1) * HALFWORD;
  }

  /** Distances to the neighbours compare like the lower halves of the pattern. */
  lemma NeighbourOrder(r: nat, s: nat)
    requires s >= 1 && r < HALFWORD
    ensures r * s < (HALFWORD - r) * s <==> r < HALFWORD - r
    ensures r * s == (HALFWORD - r) * s <==> r == HALFWORD - r
    ensures r * s >= 0 && (HALFWORD - r) * s >= 1
  {
    MulOrder(r, HALFWORD - r, s);
    MulOrder(HALFWORD - r, r, s);
    MulOrder(1, HALFWORD - r, s);
  }

  /** Of all magnitudes the rounded one is closest, and a second closest one means a tie that went to even. */
  lemma RoundsMagnitude(m: nat, n: nat, k: nat)
    requires NearestEven(n, m, HALFWORD)
    ensures var d, d' := Abs(Magnitude(n * HALFWORD) - Magnitude(m)), Abs(Magnitude(k * HALFWORD) - Magnitude(m));
            d <= d' && (d == d' && k != n ==> n % 2 == 0)
  {
    var q, r := m / HALFWORD, m % HALFWORD;
    NearestIs(m, n);
    Neighbours(m);
    NeighbourOrder(r, Ulp(q / 128));
    if k <= q {
      MagnitudeIncreases(k * HALFWORD, q * HALFWORD);
    } else {
      MagnitudeIncreases((q + 1) * HALFWORD, k * HALFWORD);
    }
    var low, mid := Magnitude(q * HALFWORD), Magnitude(m);
    var high, other := Magnitude((q + 1) * HALFWORD), Magnitude(k * HALFWORD);
    assert low <= mid < high;
    assert k < q ==> other < low;
    assert k > q + 1 ==> other > high;
  }

  lemma NearestIs(m: nat, n: nat)
    requires NearestEven(n, m, HALFWORD)
    ensures var q, r := m / HALFWORD, m % HALFWORD;
            && (r < HALFWORD - r ==> n == q) && (r > HALFWORD - r ==> n == q + 1)
            && (r == HALFWORD - r ==> (n == q || n == q + 1) && n % 2 == 0)
  {
  }

  function Distance(u: uint32, k: uint16): nat { Abs(Value(Bf16ToF32(k)) - Value(u)) }

  /** The conversion is correctly rounded in value: it keeps the sign and no bfloat16 is closer
      (an infinity standing for 2^128, as IEEE 754 rounds). */
  lemma RoundsToClosest(u: uint32, k: uint16)
    requires Finite(u) && k % 0x8000 <= 0x7f80
    ensures u < SIGN <==> F32ToBf16(u) < 0x8000
    ensures Distance(u, F32ToBf16(u)) <= Distance(u, k)
  {
    var h := F32ToBf16(u);
    var m, n, j := u % SIGN, h % 0x8000, k % 0x8000;
    RoundsUnsigned(u);
    Unsigned(h);
    Unsigned(k);
    RoundsMagnitude(m, n, j);
    RoundsMagnitude(m, n, 0);
    SignedClosest(Magnitude(m), Magnitude(n * HALFWORD), Magnitude(j * HALFWORD), u >= SIGN, k >= 0x8000);
  }

  /** An equally close bfloat16 of the same sign loses to an even result. */
  lemma TiesToEven(u: uint32, k: uint16)
    requires Finite(u) && k != F32ToBf16(u) && (k < 0x8000 <==> u < SIGN)
    requires Distance(u, k) == Distance(u, F32ToBf16(u))
    ensures F32ToBf16(u) % 2 == 0
  {
    var h := F32ToBf16(u);
    RoundsUnsigned(u);
    SameSign(u, h);
    SameSign(u, k);
    RoundsMagnitude(u % SIGN, h % 0x8000, k % 0x8000);
    DifferentUnsigned(h, k);
  }

  lemma SameSign(u: uint32, k: uint16)
    requires k < 0x8000 <==> u < SIGN
    ensures Distance(u, k) == Abs(Magnitude(k % 0x8000 * HALFWORD) - Magnitude(u % SIGN))
  {
    Unsigned(k);
    SignedClosest(Magnitude(u % SIGN), Magnitude(u % SIGN), Magnitude(k % 0x8000 * HALFWORD), u >= SIGN, u >= SIGN);
  }

  lemma DifferentUnsigned(h: uint16, k: uint16)
    requires h != k && (h < 0x8000 <==> k < 0x8000)
    ensures h % 0x8000 != k % 0x8000
    ensures h % 0x8000 % 2 == h % 2
  {
  }

  /** A magnitude that is closest among magnitudes, zero included, is closest among signed values. */
  lemma SignedClosest(x: nat, y: nat, z: nat, negative: bool, negative': bool)
    requires Abs(y - x) <= Abs(z - x) && Abs(y - x) <= Abs(0 - x)
    ensures Abs(Signed(negative, y) - Signed(negative, x)) <= Abs(Signed(negative', z) - Signed(negative, x))
    ensures Abs(Signed(negative, y) - Signed(negative, x)) == Abs(y - x)
    ensures negative == negative' ==> Abs(Signed(negative', z) - Signed(negative, x)) == Abs(z - x)
  {
  }

  /** The sign bit passes through the rounding. */
  lemma RoundsUnsigned(u: uint32)
    requires Finite(u)
    ensures u < SIGN <==> F32ToBf16(u) < 0x8000
    ensures NearestEven(F32ToBf16(u) % 0x8000, u % SIGN, HALFWORD)
  {
    RoundsPattern(u);
    var h := F32ToBf16(u);
    assert u >= SIGN ==> h >= 0x8000 && u % SIGN == u - SIGN && h % 0x8000 == h - 0x8000;
  }

  lemma Unsigned(h: uint16)
    ensures Bf16ToF32(h) % SIGN == h % 0x8000 * HALFWORD
    ensures Bf16ToF32(h) >= SIGN <==> h >= 0x8000
  {
  }

  // ----- MXFP4

  /** The kernel's table: twice the E2M1 value of each code. */
  const LUT: seq<int> := [0, 1, 2, 3, 4, 6, 8, 12, 0, -1, -2, -3, -4, -6, -8, -12]

  /** Twice the value of an E2M1 code: a sign bit, two exponent bits with bias 1, one mantissa bit. */
  function TwiceE2M1(code: nat): int
    requires code < 16
  {
    var e, f := code / 2 % 4, code % 2;
    var magnitude := if e == 0 then f else (2 + f) * Pow2(e - 1);
    if code < 8 then magnitude else -magnitude
  }

  /** The pattern of half the block scale. */
  function E8m0Half(s: uint8): uint32 {
    if s == 0 then 0 else (s - 1) * MANTISSA
  }

  lemma LutIsE2M1(code: nat)
    requires code < 16
    ensures LUT[code] == TwiceE2M1(code)
  {
    assert Pow2(0) == 1 && Pow2(1) == 2 && Pow2(2) == 4;
  }

  lemma {:induction false} PowAdd(a: nat, b: nat)
    ensures Pow2(a + b) == Pow2(a) * Pow2(b)
    decreases b
  {
    if b > 0 {
      PowAdd(a, b - 1);
      assert Pow2(a + b) == 2 * Pow2(a + b - 1);
      Associate(2, Pow2(a), Pow2(b - 1));
    }
  }

  lemma Associate(a: int, b: int, c: int)
    ensures a * (b * c) == b * (a * c)
  {
  }

  /** In units of 2^-150 the decoded element is E2M1(code) * 2^(s - 127), whose double is
      TwiceE2M1(code) * 2^(s + 22). The kernel's table entry times its half scale equals it for
      every code exactly when the scale byte is at least 2; bytes 0 and 1 decode to zero instead. */
  lemma DecodeExact(s: uint8)
    requires s < 255
    ensures s >= 2 <==> forall code: nat :: code < 16 ==>
              2 * (LUT[code] * Magnitude(E8m0Half(s))) == TwiceE2M1(code) * Pow2(s + 22)
    ensures s < 2 ==> Magnitude(E8m0Half(s)) == 0
  {
    HalfScale(s);
    if s >= 2 {
      var half := Magnitude(E8m0Half(s));
      forall code: nat | code < 16
        ensures 2 * (LUT[code] * half) == TwiceE2M1(code) * Pow2(s + 22)
      {
        LutIsE2M1(code);
        Associate(2, LUT[code], half);
      }
    } else {
      assert TwiceE2M1(1) == 1;
      assert 2 * (LUT[1] * Magnitude(E8m0Half(s))) != TwiceE2M1(1) * Pow2(s + 22);
    }
  }

  lemma HalfScale(s: uint8)
    ensures s < 2 ==> Magnitude(E8m0Half(s)) == 0
    ensures s >= 2 ==> 2 * Magnitude(E8m0Half(s)) == Pow2(s + 22)
  {
    if s >= 2 {
      assert E8m0Half(s) / MANTISSA == s - 1 && E8m0Half(s) % MANTISSA == 0;
      PowAdd(24, s - 2);
      Pow24();
    }
  }

  lemma Pow24()
    ensures Pow2(24) == 2 * MANTISSA
  {
    assert Pow2(8) == 256;
    PowAdd(8, 8);
    PowAdd(16, 8);
  }
}
