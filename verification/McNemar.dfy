/** The exact McNemar test of the quality report: two models answer the same questions, and only
    the questions on which they disagree count. */
module McNemar {
  import opened Basics

  /** The difference in percentage points, the two-sided p-value and the number of shared tasks. */
  datatype Comparison = Comparison(points: real, p: real, common: nat)

  function Choose(n: nat, k: nat): nat {
    if k == 0 then 1 else if n == 0 then 0 else Choose(n - 1, k - 1) + Choose(n - 1, k)
  }

  /** Number of subsets of an n-element set with at most m elements. */
  function Tail(n: nat, m: int): nat
    decreases if m < 0 then 0 else m + 1
  {
    if m < 0 then 0 else Tail(n, m - 1) + Choose(n, m)
  }

  function Gap(a: nat, b: nat): nat { if a < b then b - a else a - b }

  function PValue(aw: nat, bw: nat): real {
    var disc := aw + bw;
    if disc == 0 then 1.0 else
      var twoSided := 2.0 * Tail(disc, Min(aw, bw)) as real / Pow2(disc) as real;
      if twoSided < 1.0 then twoSided else 1.0
  }

  function Points(aw: nat, bw: nat, common: nat): real
    requires common > 0
  {
    100.0 * (aw - bw) as real / common as real
  }

  /** Shared tasks that a gets right and b gets wrong. */
  function Wins<K, V>(a: map<K, V>, b: map<K, V>, key: V -> bool): set<K> {
    set t | t in a && t in b && key(a[t]) && !key(b[t])
  }

  /** None is the division by zero when no task is shared. */
  function Compare<K, V>(a: map<K, V>, b: map<K, V>, key: V -> bool): Option<Comparison> {
    var common := |a.Keys * b.Keys|;
    var aw, bw := |Wins(a, b, key)|, |Wins(b, a, key)|;
    if common == 0 then None
    else Some(Comparison(Points(aw, bw, common), PValue(aw, bw), common))
  }

  // ----- binomial sums

  lemma {:induction false} ChoosePositive(n: nat, k: nat)
    ensures Choose(n, k) > 0 <==> k <= n
  {
    if n > 0 && k > 0 {
      ChoosePositive(n - 1, k - 1);
      ChoosePositive(n - 1, k);
    }
  }

  lemma {:induction false} TailPascal(n: nat, m: int)
    ensures Tail(n + 1, m) == Tail(n, m) + Tail(n, m - 1)
    decreases if m < 0 then 0 else m + 1
  {
    if m >= 0 { TailPascal(n, m - 1); }
  }

  lemma {:induction false} TailMonotone(n: nat, m: int, k: int)
    requires m <= k
    ensures Tail(n, m) <= Tail(n, k)
    ensures m < k && 0 <= k <= n ==> Tail(n, m) < Tail(n, k)
    decreases k - m
  {
    if m < k {
      TailMonotone(n, m, k - 1);
      if 0 <= k <= n { ChoosePositive(n, k); }
    }
  }

  lemma TailNone()
    ensures Tail(0, 0) == 1
  {
  }

  lemma TailWhole(n: nat)
    ensures Tail(n, n + 1) == Tail(n, n)
  {
    ChoosePositive(n, n + 1);
  }

  /** A subset is small or its complement is: the two tails partition the power set. */
  lemma {:induction false} TailComplement(n: nat, m: int)
    requires -1 <= m <= n
    ensures Tail(n, m) + Tail(n, n - m - 1) == Pow2(n)
    decreases n
  {
    hide Choose;
    if n == 0 {
      TailNone();
    } else {
      TailPascal(n - 1, m);
      TailPascal(n - 1, n - m - 1);
      if m == -1 || m == n {
        TailComplement(n - 1, n - 1);
        TailWhole(n - 1);
      } else {
        TailComplement(n - 1, m);
        TailComplement(n - 1, m - 1);
      }
    }
  }

  /** The two-sided tail reaches the whole distribution exactly when the counts differ by at most one. */
  lemma TwoSidedMass(aw: nat, bw: nat)
    requires aw + bw > 0
    ensures 2 * Tail(aw + bw, Min(aw, bw)) >= Pow2(aw + bw) <==> Gap(aw, bw) <= 1
    ensures Tail(aw + bw, Min(aw, bw)) > 0
  {
    var d, m := aw + bw, Min(aw, bw);
    TailComplement(d, m);
    TailMonotone(d, -1, m);
    if Gap(aw, bw) <= 1 {
      TailMonotone(d, d - m - 1, m);
    } else {
      TailMonotone(d, m, d - m - 1);
    }
  }

  // ----- the properties of the test

  lemma PValueRange(aw: nat, bw: nat)
    ensures 0.0 < PValue(aw, bw) <= 1.0
    ensures PValue(aw, bw) == 1.0 <==> Gap(aw, bw) <= 1
  {
    var d := aw + bw;
    if d > 0 {
      TwoSidedMass(aw, bw);
      var t, w := Tail(d, Min(aw, bw)) as real, Pow2(d) as real;
      DivideVersusOne(2.0 * t, w);
    }
  }

  lemma DivideVersusOne(x: real, w: real)
    requires w > 0.0 && x > 0.0
    ensures x / w > 0.0
    ensures x / w < 1.0 <==> x < w
  {
    var q := x / w;
    assert q * w == x;
    if q >= 1.0 { assert (q - 1.0) * w >= 0.0; }
    if q < 1.0 { assert (1.0 - q) * w > 0.0; }
  }

  lemma DivideMonotone(x: real, y: real, w: real)
    requires w > 0.0 && x < y
    ensures x / w < y / w
  {
    var p, q := x / w, y / w;
    assert p * w == x && q * w == y;
    assert (q - p) * w > 0.0;
  }

  /** For a fixed number of disagreements the p-value falls strictly as they become more one-sided. */
  lemma PValueStrictlyFalls(aw: nat, bw: nat, aw': nat, bw': nat)
    requires aw + bw == aw' + bw'
    requires 2 <= Gap(aw', bw') && Gap(aw, bw) < Gap(aw', bw')
    ensures PValue(aw', bw') < PValue(aw, bw)
  {
    PValueRange(aw, bw);
    PValueRange(aw', bw');
    if Gap(aw, bw) >= 2 {
      var d := aw + bw;
      TailMonotone(d, Min(aw', bw'), Min(aw, bw));
      DivideMonotone(2.0 * Tail(d, Min(aw', bw')) as real, 2.0 * Tail(d, Min(aw, bw)) as real, Pow2(d) as real);
    }
  }

  lemma PValueSymmetric(aw: nat, bw: nat)
    ensures PValue(aw, bw) == PValue(bw, aw)
  {
    assert aw + bw == bw + aw;
  }

  lemma PointsAntisymmetric(aw: nat, bw: nat, common: nat)
    requires common > 0
    ensures Points(bw, aw, common) == -Points(aw, bw, common)
  {
    var q := Points(aw, bw, common);
    assert q * common as real == 100.0 * (aw - bw) as real;
    assert (-q) * common as real == 100.0 * (bw - aw) as real;
  }

  /** The test is undefined exactly when no task is shared. */
  lemma CompareDefined<K, V>(a: map<K, V>, b: map<K, V>, key: V -> bool)
    ensures Compare(a, b, key).None? <==> forall t :: t in a ==> t !in b
  {
    var common := a.Keys * b.Keys;
    assert forall t :: t in a && t in b ==> t in common;
    assert |common| == 0 <==> common == {};
  }

  /** Swapping the two models negates the difference and keeps the p-value. */
  lemma CompareSwap<K, V>(a: map<K, V>, b: map<K, V>, key: V -> bool)
    ensures match (Compare(a, b, key), Compare(b, a, key))
            case (Some(ab), Some(ba)) => ba.points == -ab.points && ba.p == ab.p && ba.common == ab.common
            case (None, None) => true
            case _ => false
  {
    assert a.Keys * b.Keys == b.Keys * a.Keys;
    var common, aw, bw := |a.Keys * b.Keys|, |Wins(a, b, key)|, |Wins(b, a, key)|;
    if common > 0 {
      PValueSymmetric(aw, bw);
      PointsAntisymmetric(aw, bw, common);
    }
  }
}
