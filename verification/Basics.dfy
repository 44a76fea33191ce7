/** A few notions shared by the models. */
module Basics {

  datatype Option<+T> = None | Some(value: T)

  function Min(a: int, b: int): int { if a < b then a else b }

  function Max(a: int, b: int): int { if a < b then b else a }

  function One(b: bool): nat { if b then 1 else 0 }

  function Pow2(n: nat): (p: nat)
    ensures p >= 1
  {
    if n == 0 then 1 else 2 * Pow2(n - 1)
  }

  /** Quotient and remainder are unique. */
  lemma DivMod(q: int, d: nat, r: nat)
    requires r < d
    ensures (q * d + r) / d == q && (q * d + r) % d == r
  {
    var x := (q * d + r) / d;
    assert x * d <= q * d + r < x * d + d;
    MulOrder(q + 1, x, d);
    MulOrder(x + 1, q, d);
  }

  lemma Distribute(a: int, b: int, n: int)
    ensures (a + b) * n == a * n + b * n
  {
  }

  /** Multiplication keeps order, and a strict order leaves room for one more. */
  lemma MulOrder(a: int, b: int, n: nat)
    ensures a < b ==> a * n + n <= b * n
    ensures a <= b ==> a * n <= b * n
  {
    Distribute(b - a, a, n);
    if a < b { Distribute(b - a - 1, 1, n); }
  }

  lemma SubsetSize(s: set<int>, t: set<int>)
    requires s <= t
    ensures |s| <= |t|
  {
    assert t == s + (t - s);
  }

  /** A Python slice: an end past the sequence is clipped, an empty range gives nothing. */
  function Slice<T>(s: seq<T>, lo: nat, hi: int): seq<T> {
    var end := Min(hi, |s|);
    if lo < end then s[lo..end] else []
  }

  /** Insertion sort, by value. */
  function Insert(s: seq<int>, x: int): seq<int> {
    if |s| == 0 || x <= s[0] then [x] + s else [s[0]] + Insert(s[1..], x)
  }

  function Sort(s: seq<int>): seq<int> {
    if |s| == 0 then [] else Insert(Sort(s[..|s| - 1]), s[|s| - 1])
  }

  lemma Inhabited<A(!new)>(s: set<A>)
    ensures s == {} || exists y :: y in s
  {
    if forall y :: y !in s {
      assert s <= {};
    }
  }

  lemma Member<A(!new)>(s: set<A>) returns (x: A)
    requires |s| > 0
    ensures x in s
  {
    Inhabited(s);
    x :| x in s;
  }

  ghost function Image<A(!new), B(!new)>(s: set<A>, f: A -> B): set<B> { set x | x in s :: f(x) }

  /** An injective map keeps the size of a set. */
  lemma {:induction false} ImageSize<A(!new), B(!new)>(s: set<A>, f: A -> B)
    requires forall x, y :: x in s && y in s && x != y ==> f(x) != f(y)
    ensures |Image(s, f)| == |s|
    decreases |s|
  {
    if |s| == 0 {
      assert s == {};
      assert Image(s, f) == {};
    } else {
      var x := Member(s);
      ImageSize(s - {x}, f);
      assert Image(s, f) == Image(s - {x}, f) + {f(x)};
    }
  }
}
