/** What the quality report's test counts: sets of disagreements, and tasks. */
module McNemarExact {
  import opened Basics
  import opened McNemar

  // ----- subsets

  ghost function Subsets(D: set<int>): set<set<int>> { set S: set<int> | S <= D }

  /** The subsets of size k, and those of at most m elements. */
  ghost function Sized(D: set<int>, k: nat): set<set<int>> { set S: set<int> | S <= D && |S| == k }

  ghost function Small(D: set<int>, m: int): set<set<int>> { set S: set<int> | S <= D && |S| <= m }

  lemma PartSize(D: set<int>, S: set<int>)
    requires S <= D
    ensures |S| <= |D| && |D - S| == |D| - |S| && D - (D - S) == S
  {
    assert D == S + (D - S);
  }

  lemma OnlyEmpty(S: set<int>)
    ensures |S| == 0 <==> S == {}
  {
  }

  lemma {:induction false} SizedCount(D: set<int>, k: nat)
    ensures |Sized(D, k)| == Choose(|D|, k)
    decreases |D|
  {
    if k == 0 {
      assert Sized(D, 0) == {{}} by {
        forall S | S in Sized(D, 0) ensures S == {} { OnlyEmpty(S); }
      }
    } else if |D| == 0 {
      assert Sized(D, k) == {} by {
        forall S | S in Sized(D, k) ensures false { PartSize(D, S); }
      }
    } else {
      var x := Member(D);
      SizedCount(D - {x}, k);
      SizedCount(D - {x}, k - 1);
      SplitSized(D, x, k);
    }
  }

  /** A set of size k leaves x out, or is a smaller one with it. */
  lemma SplitSized(D: set<int>, x: int, k: nat)
    requires x in D && k > 0
    ensures |Sized(D, k)| == |Sized(D - {x}, k)| + |Sized(D - {x}, k - 1)|
  {
    var with := (S: set<int>) => S + {x};
    var a, b := Sized(D - {x}, k), Image(Sized(D - {x}, k - 1), with);
    WithInjective(D, x, k - 1, with);
    ImageSize(Sized(D - {x}, k - 1), with);
    forall S: set<int>
      ensures S in Sized(D, k) <==> S in a || S in b
      ensures !(S in a && S in b)
    {
      SplitOne(D, x, k, with, S);
    }
    hide Sized, Image;
    assert Sized(D, k) == a + b && a !! b;
  }

  lemma WithInjective(D: set<int>, x: int, k: nat, with: set<int> -> set<int>)
    requires forall S :: with(S) == S + {x}
    ensures forall S, T :: S in Sized(D - {x}, k) && T in Sized(D - {x}, k) && S != T ==> with(S) != with(T)
  {
    forall S, T | S in Sized(D - {x}, k) && T in Sized(D - {x}, k) && S != T
      ensures with(S) != with(T)
    {
      assert S == (S + {x}) - {x} && T == (T + {x}) - {x};
    }
  }

  lemma SplitOne(D: set<int>, x: int, k: nat, with: set<int> -> set<int>, S: set<int>)
    requires x in D && k > 0 && forall T :: with(T) == T + {x}
    ensures var a, b := Sized(D - {x}, k), Image(Sized(D - {x}, k - 1), with);
            (S in Sized(D, k) <==> S in a || S in b) && !(S in a && S in b)
  {
    if S in Sized(D, k) && x in S {
      var T := S - {x};
      assert with(T) == S && T in Sized(D - {x}, k - 1);
    }
    if S in Image(Sized(D - {x}, k - 1), with) {
      var T :| T in Sized(D - {x}, k - 1) && with(T) == S;
      assert x !in T && |T + {x}| == |T| + 1;
    }
  }

  lemma {:induction false} SmallCount(D: set<int>, m: int)
    ensures |Small(D, m)| == Tail(|D|, m)
    decreases if m < 0 then 0 else m + 1
  {
    if m < 0 {
      assert Small(D, m) == {};
    } else {
      SmallCount(D, m - 1);
      SizedCount(D, m);
      assert Small(D, m) == Small(D, m - 1) + Sized(D, m);
      assert Small(D, m - 1) !! Sized(D, m);
    }
  }

  /** A set has 2^n subsets. */
  lemma AllCount(D: set<int>)
    ensures |Subsets(D)| == Pow2(|D|)
  {
    forall S | S in Subsets(D)
      ensures S in Small(D, |D|)
    {
      PartSize(D, S);
    }
    assert Subsets(D) == Small(D, |D|);
    SmallCount(D, |D|);
    TailComplement(|D|, |D|);
  }

  // ----- the p-value

  /** The ways to hand some of the disagreements D to one side that are at least as uneven as aw against bw. */
  ghost function Extreme(D: set<int>, aw: nat, bw: nat): set<set<int>> {
    set S: set<int> | S <= D && |S| <= |D| && Gap(|S|, |D| - |S|) >= Gap(aw, bw)
  }

  lemma FlipInjective(D: set<int>, m: int, flip: set<int> -> set<int>)
    requires forall S :: flip(S) == D - S
    ensures forall S, T :: S in Small(D, m) && T in Small(D, m) && S != T ==> flip(S) != flip(T)
  {
    forall S, T | S in Small(D, m) && T in Small(D, m) && S != T
      ensures flip(S) != flip(T)
    {
      PartSize(D, S);
      PartSize(D, T);
    }
  }

  /** The extreme sets are the small sets and the complements of the small sets. */
  lemma ExtremeCount(D: set<int>, aw: nat, bw: nat)
    requires aw != bw && |D| == aw + bw
    ensures |Extreme(D, aw, bw)| == 2 * Tail(aw + bw, Min(aw, bw))
  {
    var m := Min(aw, bw);
    var flip := (S: set<int>) => D - S;
    var small, large := Small(D, m), Image(Small(D, m), flip);
    SmallCount(D, m);
    FlipInjective(D, m, flip);
    ImageSize(small, flip);
    forall S: set<int>
      ensures S in Extreme(D, aw, bw) <==> S in small || S in large
      ensures !(S in small && S in large)
    {
      ExtremeOne(D, aw, bw, S, flip);
    }
    hide Extreme, Small, Image, Tail;
    assert Extreme(D, aw, bw) == small + large && small !! large;
  }

  lemma ExtremeOne(D: set<int>, aw: nat, bw: nat, S: set<int>, flip: set<int> -> set<int>)
    requires aw != bw && |D| == aw + bw && forall T :: flip(T) == D - T
    ensures var small := Small(D, Min(aw, bw));
            && (S in Extreme(D, aw, bw) <==> S in small || S in Image(small, flip))
            && !(S in small && S in Image(small, flip))
  {
    var m := Min(aw, bw);
    LargeOne(D, m, S, flip);
    hide Image;
    if S <= D { PartSize(D, S); }
  }

  lemma LargeOne(D: set<int>, m: nat, S: set<int>, flip: set<int> -> set<int>)
    requires forall T :: flip(T) == D - T
    ensures S in Image(Small(D, m), flip) <==> S <= D && |D| - |S| <= m
  {
    if S in Image(Small(D, m), flip) {
      var T :| T in Small(D, m) && flip(T) == S;
      PartSize(D, T);
    }
    if S <= D && |D| - |S| <= m {
      PartSize(D, S);
      assert D - S in Small(D, m) && flip(D - S) == S;
    }
  }

  lemma EvenSplit(D: set<int>, aw: nat)
    requires |D| == aw + aw
    ensures Extreme(D, aw, aw) == Subsets(D)
  {
    forall S | S in Subsets(D)
      ensures S in Extreme(D, aw, aw)
    {
      PartSize(D, S);
    }
  }

  lemma ExtremeBound(D: set<int>, aw: nat, bw: nat)
    ensures |Extreme(D, aw, bw)| <= Pow2(|D|)
  {
    AllCount(D);
    var a, b := Extreme(D, aw, bw), Subsets(D);
    assert a <= b;
    assert b == a + (b - a);
  }

  lemma Share(x: real, w: real)
    requires 0.0 < x <= w
    ensures (if x / w < 1.0 then x / w else 1.0) * w == x
  {
    DivideVersusOne(x, w);
    Quotient(x, w);
  }

  lemma Quotient(x: real, w: real)
    requires w > 0.0
    ensures x / w * w == x
  {
  }

  /** p is the mass of the two tails, or one if they meet. */
  lemma PValueMass(aw: nat, bw: nat, mass: nat)
    requires aw != bw && mass == 2 * Tail(aw + bw, Min(aw, bw)) && mass <= Pow2(aw + bw)
    ensures PValue(aw, bw) * Pow2(aw + bw) as real == mass as real
  {
    TwoSidedMass(aw, bw);
    Share(mass as real, Pow2(aw + bw) as real);
    PValueIs(aw, bw, mass as real, Pow2(aw + bw) as real);
  }

  lemma PValueIs(aw: nat, bw: nat, x: real, w: real)
    requires aw + bw > 0 && x == (2 * Tail(aw + bw, Min(aw, bw))) as real && w == Pow2(aw + bw) as real
    ensures PValue(aw, bw) == if x / w < 1.0 then x / w else 1.0
  {
    hide Tail, Pow2;
  }

  /** Exactness: for any aw + bw disagreements, of the 2^(aw + bw) ways to hand them out the p-value is the share of
      those that are at least as uneven as the one observed. */
  lemma PValueExact(D: set<int>, aw: nat, bw: nat)
    requires |D| == aw + bw
    ensures |Subsets(D)| == Pow2(aw + bw)
    ensures PValue(aw, bw) * Pow2(aw + bw) as real == |Extreme(D, aw, bw)| as real
  {
    AllCount(D);
    if aw == bw {
      EvenSplit(D, aw);
      PValueRange(aw, bw);
    } else {
      ExtremeCount(D, aw, bw);
      ExtremeBound(D, aw, bw);
      PValueMass(aw, bw, |Extreme(D, aw, bw)|);
    }
  }

  // ----- the comparison

  /** The shared tasks that satisfy a test. */
  ghost function Shared<K(!new), V>(a: map<K, V>, b: map<K, V>, test: (V, V) -> bool): set<K> {
    set t | t in a && t in b && test(a[t], b[t])
  }

  lemma SharedSplit<K(!new), V>(a: map<K, V>, b: map<K, V>, f: (V, V) -> bool, g: (V, V) -> bool)
    ensures |Shared(a, b, f)| == |Shared(a, b, (x, y) => f(x, y) && g(x, y))|
                                 + |Shared(a, b, (x, y) => f(x, y) && !g(x, y))|
  {
    var yes, no := Shared(a, b, (x, y) => f(x, y) && g(x, y)), Shared(a, b, (x, y) => f(x, y) && !g(x, y));
    assert Shared(a, b, f) == yes + no && yes !! no;
  }

  /** What is compared: on the shared tasks the points are the difference of the two models' numbers of correct answers,
      in percent, and the test counts the tasks that only one of them gets right. */
  lemma CompareExact<K(!new), V>(a: map<K, V>, b: map<K, V>, key: V -> bool)
    requires Compare(a, b, key).Some?
    ensures var r := Compare(a, b, key).value;
            && r.common == |Shared(a, b, (x, y) => true)| > 0
            && r.points * r.common as real
               == 100.0 * (|Shared(a, b, (x, y) => key(x))| - |Shared(a, b, (x, y) => key(y))|) as real
            && r.p == PValue(|Shared(a, b, (x, y) => key(x) && !key(y))|, |Shared(a, b, (x, y) => key(y) && !key(x))|)
  {
    CompareParts(a, b, key);
    RightAnswers(a, b, key);
    var r := Compare(a, b, key).value;
    var aw, bw, common := |Wins(a, b, key)|, |Wins(b, a, key)|, |a.Keys * b.Keys|;
    hide PValue, Shared, Wins;
    assert r.points == 100.0 * (aw - bw) as real / common as real;
  }

  lemma CompareParts<K(!new), V>(a: map<K, V>, b: map<K, V>, key: V -> bool)
    ensures Shared(a, b, (x, y) => true) == a.Keys * b.Keys
    ensures Shared(a, b, (x, y) => key(x) && !key(y)) == Wins(a, b, key)
    ensures Shared(a, b, (x, y) => key(y) && !key(x)) == Wins(b, a, key)
  {
  }

  lemma RightAnswers<K(!new), V>(a: map<K, V>, b: map<K, V>, key: V -> bool)
    ensures |Shared(a, b, (x, y) => key(x))| - |Shared(a, b, (x, y) => key(y))| == |Wins(a, b, key)| - |Wins(b, a, key)|
  {
    var f, g := (x, y) => key(x), (x, y) => key(y);
    SharedSplit(a, b, f, g);
    SharedSplit(a, b, g, f);
    assert Shared(a, b, (x, y) => f(x, y) && g(x, y)) == Shared(a, b, (x, y) => g(x, y) && f(x, y));
    assert Shared(a, b, (x, y) => f(x, y) && !g(x, y)) == Wins(a, b, key);
    assert Shared(a, b, (x, y) => g(x, y) && !f(x, y)) == Wins(b, a, key);
    assert Shared(a, b, f) == Shared(a, b, (x, y) => key(x)) && Shared(a, b, g) == Shared(a, b, (x, y) => key(y));
  }
}
