/** The sharded merge: exchanging only each rank's own top-K is exact. */
module ShardMerge {
  import opened Basics
  import opened TopK

  type Order = (int, int) -> bool

  /** above is a strict total order on the positions. */
  ghost predicate StrictTotal(above: Order, all: set<int>) {
    && (forall a :: a in all ==> !above(a, a))
    && (forall a, b :: a in all && b in all && a != b ==> (above(a, b) <==> !above(b, a)))
    && forall a, b, c :: a in all && b in all && c in all && above(a, b) && above(b, c) ==> above(a, c)
  }

  /** The positions of s that rank above x. */
  ghost function Above(above: Order, s: set<int>, x: int): set<int> { set y | y in s && above(y, x) }

  /** The K best positions of s. */
  ghost function Top(above: Order, s: set<int>, K: nat): set<int> { set x | x in s && |Above(above, s, x)| < K }

  /** The union of the per-rank winners. */
  ghost function Gathered(above: Order, shards: seq<set<int>>, K: nat): set<int> {
    if |shards| == 0 then {} else Gathered(above, shards[..|shards| - 1], K) + Top(above, shards[|shards| - 1], K)
  }

  ghost function Union(shards: seq<set<int>>): set<int> {
    if |shards| == 0 then {} else Union(shards[..|shards| - 1]) + shards[|shards| - 1]
  }

  lemma AboveFewer(above: Order, s: set<int>, t: set<int>, x: int)
    requires s <= t
    ensures |Above(above, s, x)| <= |Above(above, t, x)|
  {
    SubsetSize(Above(above, s, x), Above(above, t, x));
  }

  /** Some position ranks below all others. */
  lemma {:induction false} Lowest(above: Order, s: set<int>) returns (z: int)
    requires StrictTotal(above, s) && |s| > 0
    ensures z in s && forall y :: y in s && y != z ==> above(y, z)
    decreases |s|
  {
    var x := Member(s);
    var rest := s - {x};
    if |rest| == 0 {
      assert s == {x};
      z := x;
    } else {
      z := Lowest(above, rest);
      var low := z;
      if above(low, x) {
        z := x;
        forall y | y in s && y != x
          ensures above(y, x)
        {
          assert y in rest && (y == low || (above(y, low) && above(low, x)));
        }
      } else {
        assert above(x, low);
      }
    }
  }

  /** There are K best positions, or all of them. */
  lemma {:induction false} TopSize(above: Order, s: set<int>, K: nat)
    requires StrictTotal(above, s)
    ensures |Top(above, s, K)| == if |s| < K then |s| else K
    decreases |s|
  {
    if |s| == 0 {
      assert s == {};
      assert Top(above, s, K) == {};
    } else {
      var z := Lowest(above, s);
      var rest := s - {z};
      TopSize(above, rest, K);
      TopWithLowest(above, s, K, z);
    }
  }

  /** The lowest position joins the winners exactly when there is room for all. */
  lemma TopWithLowest(above: Order, s: set<int>, K: nat, z: int)
    requires StrictTotal(above, s) && z in s && forall y :: y in s && y != z ==> above(y, z)
    ensures Top(above, s, K) == Top(above, s - {z}, K) + if |s| - 1 < K then {z} else {}
  {
    assert Above(above, s, z) == s - {z};
    forall x | x in s && x != z
      ensures Above(above, s, x) == Above(above, s - {z}, x)
    {
      assert !above(z, x);
    }
  }

  /** Winners of a superset win in every subset they are in. */
  lemma WinnersStay(above: Order, s: set<int>, all: set<int>, K: nat)
    requires s <= all
    ensures forall x :: x in s && x in Top(above, all, K) ==> x in Top(above, s, K)
  {
    forall x | x in s && x in Top(above, all, K)
      ensures x in Top(above, s, K)
    {
      AboveFewer(above, s, all, x);
    }
  }

  /** Dropping positions that are not winners does not change the winners. */
  lemma TopOfBetween(above: Order, u: set<int>, all: set<int>, K: nat)
    requires StrictTotal(above, all) && Top(above, all, K) <= u <= all
    ensures Top(above, u, K) == Top(above, all, K)
  {
    WinnersStay(above, u, all, K);
    forall x | x in Top(above, u, K)
      ensures x in Top(above, all, K)
    {
      if x !in Top(above, all, K) { CrowdedOut(above, u, all, K, x); }
    }
  }

  /** A position with K or more above it has all K winners above it. */
  lemma CrowdedOut(above: Order, u: set<int>, all: set<int>, K: nat, x: int)
    requires StrictTotal(above, all) && Top(above, all, K) <= u <= all && x in u
    requires |Above(above, all, x)| >= K
    ensures |Above(above, u, x)| >= K
  {
    var winners := Top(above, all, K);
    TopSize(above, all, K);
    SubsetSize(Above(above, all, x), all);
    forall y | y in winners
      ensures y in Above(above, u, x)
    {
      if !above(y, x) {
        if y != x {
          forall w | w in Above(above, all, x)
            ensures w in Above(above, all, y)
          {
            assert above(w, x) && above(x, y);
          }
          SubsetSize(Above(above, all, x), Above(above, all, y));
        }
      }
    }
    SubsetSize(winners, Above(above, u, x));
  }

  lemma {:induction false} GatheredHas(above: Order, shards: seq<set<int>>, all: set<int>, K: nat)
    requires Union(shards) <= all
    ensures Gathered(above, shards, K) <= Union(shards)
    ensures forall x :: x in Union(shards) && x in Top(above, all, K) ==> x in Gathered(above, shards, K)
  {
    if |shards| > 0 {
      GatheredHas(above, shards[..|shards| - 1], all, K);
      WinnersStay(above, shards[|shards| - 1], all, K);
    }
  }

  /** For any division of the positions over ranks and any total order, the global winners are among the ranks'
      own winners, and the winners of those are the global winners. */
  lemma MergeExact(above: Order, shards: seq<set<int>>, K: nat)
    requires StrictTotal(above, Union(shards))
    ensures Top(above, Union(shards), K) <= Gathered(above, shards, K)
    ensures Top(above, Gathered(above, shards, K), K) == Top(above, Union(shards), K)
  {
    GatheredHas(above, shards, Union(shards), K);
    TopOfBetween(above, Gathered(above, shards, K), Union(shards), K);
  }

  /** By score, ties to the smaller id. */
  function ByScore(score: int -> real): Order {
    (a: int, b: int) => score(a) > score(b) || (score(a) == score(b) && a < b)
  }

  lemma ByScoreIsTotal(score: int -> real, all: set<int>)
    ensures StrictTotal(ByScore(score), all)
    ensures forall a, b :: score(a) > score(b) || (score(a) == score(b) && a < b) ==>
              ByScore(score)(a, b) && !ByScore(score)(b, a)
  {
  }

  // ----- local selections that break score ties in their own way

  /** Some K best positions by score: who wins among equal scores is open. */
  ghost predicate Selects(score: int -> real, s: set<int>, K: nat, sel: set<int>) {
    && sel <= s && |sel| == Min(K, |s|)
    && forall a, b :: a in sel && b in s && b !in sel ==> score(a) >= score(b)
  }

  /** Each rank has selected among its own positions. */
  ghost predicate AllSelect(score: int -> real, shards: seq<set<int>>, K: nat, picks: seq<set<int>>) {
    |shards| == |picks| && forall r :: 0 <= r < |shards| ==> Selects(score, shards[r], K, picks[r])
  }

  lemma {:induction false} InUnion(shards: seq<set<int>>, x: int)
    ensures x in Union(shards) <==> exists r :: 0 <= r < |shards| && x in shards[r]
  {
    if |shards| > 0 {
      InUnion(shards[..|shards| - 1], x);
      assert shards == shards[..|shards| - 1] + [shards[|shards| - 1]];
    }
  }

  lemma PartOfUnion(shards: seq<set<int>>, r: nat)
    requires r < |shards|
    ensures shards[r] <= Union(shards)
  {
    forall x | x in shards[r]
      ensures x in Union(shards)
    {
      InUnion(shards, x);
    }
  }

  lemma Missing(s: set<int>, t: set<int>)
    ensures s <= t || exists y :: y in s && y !in t
  {
    if forall y :: y in s ==> y in t { assert s <= t; }
  }

  lemma SameSize(s: set<int>, t: set<int>)
    requires s <= t && |s| == |t|
    ensures s == t
  {
    assert |t - s| == |t| - |s|;
    Inhabited(t - s);
  }

  lemma PicksInside(score: int -> real, shards: seq<set<int>>, K: nat, picks: seq<set<int>>)
    requires AllSelect(score, shards, K, picks)
    ensures Union(picks) <= Union(shards)
  {
    forall x | x in Union(picks)
      ensures x in Union(shards)
    {
      InUnion(picks, x);
      InUnion(shards, x);
    }
  }

  /** A position its rank left out is beaten by K of the rank's picks. */
  lemma LeftOut(score: int -> real, shards: seq<set<int>>, K: nat, picks: seq<set<int>>, b: int) returns (r: nat)
    requires AllSelect(score, shards, K, picks) && b in Union(shards) && b !in Union(picks)
    ensures r < |picks| && |picks[r]| == K && picks[r] <= Union(picks)
    ensures forall p :: p in picks[r] ==> score(p) >= score(b)
  {
    InUnion(shards, b);
    r :| 0 <= r < |shards| && b in shards[r];
    PartOfUnion(picks, r);
    assert Selects(score, shards[r], K, picks[r]) && b !in picks[r];
    if |picks[r]| == |shards[r]| { SameSize(picks[r], shards[r]); }
  }

  /** The picks are enough for a selection of the global size. */
  lemma PicksSuffice(score: int -> real, shards: seq<set<int>>, K: nat, picks: seq<set<int>>)
    requires AllSelect(score, shards, K, picks)
    ensures Min(K, |Union(picks)|) == Min(K, |Union(shards)|)
  {
    PicksInside(score, shards, K, picks);
    SubsetSize(Union(picks), Union(shards));
    Missing(Union(shards), Union(picks));
    if b :| b in Union(shards) && b !in Union(picks) {
      var r := LeftOut(score, shards, K, picks, b);
      SubsetSize(picks[r], Union(picks));
    } else {
      assert Union(picks) == Union(shards);
    }
  }

  /** For any division over ranks, whichever way each rank breaks score ties, any selection by score from the gathered
      picks is a selection by score from all positions. */
  lemma MergeAnyTies(score: int -> real, shards: seq<set<int>>, K: nat, picks: seq<set<int>>, merged: set<int>)
    requires AllSelect(score, shards, K, picks) && Selects(score, Union(picks), K, merged)
    ensures Selects(score, Union(shards), K, merged)
  {
    PicksInside(score, shards, K, picks);
    PicksSuffice(score, shards, K, picks);
    forall a, b | a in merged && b in Union(shards) && b !in merged
      ensures score(a) >= score(b)
    {
      if b !in Union(picks) {
        var r := LeftOut(score, shards, K, picks, b);
        PickBetween(score, Union(picks), K, merged, picks[r], a, b);
      }
    }
  }

  /** K picks that all reach b's score leave no lower one among the K merged. */
  lemma PickBetween(score: int -> real, all: set<int>, K: nat, merged: set<int>, picks: set<int>, a: int, b: int)
    requires Selects(score, all, K, merged) && a in merged && picks <= all && |picks| == K
    requires forall p :: p in picks ==> score(p) >= score(b)
    ensures score(a) >= score(b)
  {
    Missing(picks, merged);
    if p :| p in picks && p !in merged {
      assert score(a) >= score(p);
    } else {
      SubsetSize(merged, all);
      SubsetSize(picks, merged);
      SameSize(picks, merged);
    }
  }

  /** The merge's own selector, score with ties to the smaller id, is such a selection. */
  lemma TopSelects(score: int -> real, s: set<int>, K: nat)
    ensures Selects(score, s, K, Top(ByScore(score), s, K))
  {
    var above := ByScore(score);
    ByScoreIsTotal(score, s);
    TopSize(above, s, K);
    forall a, b | a in Top(above, s, K) && b in s && b !in Top(above, s, K)
      ensures score(a) >= score(b)
    {
      if score(b) > score(a) { SubsetSize(Above(above, s, b), Above(above, s, a)); }
    }
  }

  // ----- from row to selection

  /** The columns a row names. */
  ghost function Named(ks: nat, out: seq<int>, m: nat): set<int> { set a | 0 <= a < m && a < |out| :: ks + out[a] }

  /** A row that meets its contract is its rank's selection, under any numbering of its columns by global ids. */
  lemma RowSelects(row: seq<Score>, ks: nat, ke: nat, topk: nat, out: seq<int>, id: int -> int, score: int -> real)
    requires RowContract(row, ks, ke, topk, out)
    requires forall c, d :: Eligible(row, ks, ke, c) && Eligible(row, ks, ke, d) && c != d ==> id(c) != id(d)
    requires forall c :: Eligible(row, ks, ke, c) ==> score(id(c)) == row[c].value
    ensures Selects(score, Image(Eligibles(row, ks, ke), id), topk, Image(Named(ks, out, Count(row, ks, ke, topk)), id))
  {
    var m, E := Count(row, ks, ke, topk), Eligibles(row, ks, ke);
    var N := Named(ks, out, m);
    NamedSize(ks, out, m);
    NamedEligible(row, ks, ke, topk, out);
    hide RowContract, Named, Eligible, Eligibles;
    ImageSize(E, id);
    ImageSize(N, id);
    forall a, b | a in Image(N, id) && b in Image(E, id) && b !in Image(N, id)
      ensures score(a) >= score(b)
    {
      var c :| c in N && id(c) == a;
      var d :| d in E && id(d) == b;
      NamedBeats(row, ks, ke, topk, out, c, d);
    }
  }

  lemma NamedEligible(row: seq<Score>, ks: nat, ke: nat, topk: nat, out: seq<int>)
    requires RowContract(row, ks, ke, topk, out)
    ensures Named(ks, out, Count(row, ks, ke, topk)) <= Eligibles(row, ks, ke)
    ensures forall c :: c in Eligibles(row, ks, ke) <==> Eligible(row, ks, ke, c)
  {
  }

  lemma NamedSize(ks: nat, out: seq<int>, m: nat)
    requires m <= |out| && forall a, b :: 0 <= a < b < m ==> out[a] < out[b]
    ensures |Named(ks, out, m)| == m
  {
    var f := (a: int) => if 0 <= a < |out| then ks + out[a] else 0;
    ColumnsExact(m);
    ImageSize(Columns(m), f);
    forall c
      ensures c in Named(ks, out, m) <==> c in Image(Columns(m), f)
    {
      if c in Named(ks, out, m) {
        var a :| 0 <= a < m && c == ks + out[a];
        assert a in Columns(m) && f(a) == c;
      }
    }
    assert Named(ks, out, m) == Image(Columns(m), f);
  }

  lemma NamedBeats(row: seq<Score>, ks: nat, ke: nat, topk: nat, out: seq<int>, c: int, d: int)
    requires RowContract(row, ks, ke, topk, out)
    requires c in Named(ks, out, Count(row, ks, ke, topk)) && d !in Named(ks, out, Count(row, ks, ke, topk))
    requires Eligible(row, ks, ke, d)
    ensures Eligible(row, ks, ke, c) && row[c].value >= row[d].value
  {
    var m := Count(row, ks, ke, topk);
    var a :| 0 <= a < m && c == ks + out[a];
    NamedOut(ks, out, m, d);
    assert Beats(row, ks + out[a], d);
  }

  lemma NamedOut(ks: nat, out: seq<int>, m: nat, d: int)
    requires m <= |out|
    ensures (d - ks) in out[..m] ==> d in Named(ks, out, m)
  {
    if (d - ks) in out[..m] {
      var b :| 0 <= b < m && out[..m][b] == d - ks;
      assert d == ks + out[b];
    }
  }

  /** One rank's share of a row: its logits, its column range, the indices its top-k wrote, and the global ids of its
      columns. */
  datatype Share = Share(row: seq<Score>, ks: nat, ke: nat, out: seq<int>, id: int -> int) {
    ghost predicate Ok(topk: nat, score: int -> real) {
      && RowContract(row, ks, ke, topk, out)
      && (forall c, d :: Eligible(row, ks, ke, c) && Eligible(row, ks, ke, d) && c != d ==> id(c) != id(d))
      && forall c :: Eligible(row, ks, ke, c) ==> score(id(c)) == row[c].value
    }

    ghost function Positions(): set<int> { Image(Eligibles(row, ks, ke), id) }

    ghost function Winners(topk: nat): set<int> { Image(Named(ks, out, Count(row, ks, ke, topk)), id) }
  }

  /** From the local top-k rows to the global top-k: whatever ties the ranks broke, a selection by score among the ids
      they sent is a selection by score among all finite in-range columns of all ranks. */
  lemma SharesMerge(shares: seq<Share>, topk: nat, score: int -> real, shards: seq<set<int>>, picks: seq<set<int>>,
                    merged: set<int>)
    requires |shards| == |picks| == |shares| && forall r :: 0 <= r < |shares| ==> shares[r].Ok(topk, score)
    requires forall r :: 0 <= r < |shares| ==>
               shards[r] == shares[r].Positions() && picks[r] == shares[r].Winners(topk)
    requires Selects(score, Union(picks), topk, merged)
    ensures Selects(score, Union(shards), topk, merged)
  {
    forall r | 0 <= r < |shares|
      ensures Selects(score, shards[r], topk, picks[r])
    {
      var s := shares[r];
      RowSelects(s.row, s.ks, s.ke, topk, s.out, s.id, score);
    }
    MergeAnyTies(score, shards, topk, picks, merged);
  }
}
