/** Which batch sizes get CUDA graphs: the sizing rule of the compilation config. */
module CaptureSizes {
  import opened Basics

  datatype Outcome = Done | AssertionFailed | InconsistentMax

  /** What the rule reads besides the two fields it overwrites. tiers pairs a decode query length with the widest
      batch running at it; without dynamic speculation it is the single pair (queryLen, maxNumSeqs). */
  datatype Setup = Setup(maxNumTokens: nat, maxNumSeqs: nat, queryLen: nat, platformMax: nat, interactivity: bool,
                         tiers: seq<(nat, nat)>)

  /** Python's range(lo, hi, step). */
  function Range(lo: int, hi: int, step: nat): seq<int>
    requires step > 0
    decreases hi - lo
  {
    if lo >= hi then [] else [lo] + Range(lo + step, hi, step)
  }

  predicate InRange(x: int, lo: int, hi: int, step: nat)
    requires step > 0
  {
    lo <= x < hi && (x - lo) % step == 0
  }

  lemma {:induction false} RangeExact(lo: int, hi: int, step: nat, x: int)
    requires step > 0
    ensures x in Range(lo, hi, step) <==> InRange(x, lo, hi, step)
    decreases hi - lo
  {
    if lo < hi {
      RangeExact(lo + step, hi, step, x);
      StepBack(x - lo, step);
    }
  }

  lemma StepBack(d: int, step: nat)
    requires step > 0
    ensures d >= step ==> (d % step == 0 <==> (d - step) % step == 0)
    ensures 0 < d < step ==> d % step != 0
  {
    if d >= step {
      var q, r := (d - step) / step, (d - step) % step;
      assert d == (q + 1) * step + r;
      DivMod(q + 1, step, r);
    }
  }

  // ----- sorted(set(...))

  ghost predicate StrictlyAscending(s: seq<int>) {
    forall a, b :: 0 <= a < b < |s| ==> s[a] < s[b]
  }

  /** A smaller element in front keeps the order. */
  lemma ConsAscending(x: int, s: seq<int>)
    requires StrictlyAscending(s) && forall y :: y in s ==> x < y
    ensures StrictlyAscending([x] + s)
  {
    assert forall a :: 0 <= a < |s| ==> s[a] in s;
  }

  lemma HeadIsLeast(s: seq<int>)
    requires StrictlyAscending(s) && |s| > 0
    ensures StrictlyAscending(s[1..]) && forall y :: y in s[1..] ==> s[0] < y
    ensures forall y :: y in s <==> y == s[0] || y in s[1..]
  {
    assert s == [s[0]] + s[1..];
  }

  lemma {:induction false} InsertExact(s: seq<int>, x: int)
    requires StrictlyAscending(s) && x !in s
    ensures StrictlyAscending(Insert(s, x))
    ensures forall y :: y in Insert(s, x) <==> y == x || y in s
    decreases |s|
  {
    hide StrictlyAscending;
    if |s| == 0 {
      ConsAscending(x, s);
    } else {
      HeadIsLeast(s);
      if x <= s[0] {
        ConsAscending(x, s);
      } else {
        InsertExact(s[1..], x);
        ConsAscending(s[0], Insert(s[1..], x));
      }
    }
  }

  function SortedSet(s: seq<int>): seq<int> {
    if |s| == 0 then []
    else
      var rest, x := SortedSet(s[..|s| - 1]), s[|s| - 1];
      if x in rest then rest else Insert(rest, x)
  }

  lemma {:induction false} SortedSetExact(s: seq<int>)
    ensures StrictlyAscending(SortedSet(s))
    ensures forall y :: y in SortedSet(s) <==> y in s
  {
    hide StrictlyAscending;
    if |s| > 0 {
      var rest, x := SortedSet(s[..|s| - 1]), s[|s| - 1];
      SortedSetExact(s[..|s| - 1]);
      if x !in rest { InsertExact(rest, x); }
      assert s == s[..|s| - 1] + [x];
    } else {
      Nothing();
    }
  }

  lemma Nothing()
    ensures StrictlyAscending([])
  {
  }

  // ----- the pieces of the default list

  /** The batch sizes, in requests, that decode graphs are scaled from. */
  predicate RequestCount(n: int, maxReqs: nat, platformMax: nat) {
    var top := Min(maxReqs, platformMax);
    || n == top || (n <= top && (n == 1 || n == 2 || n == 4))
    || (8 <= n < Min(top + 1, 256) && n % 8 == 0) || (256 <= n <= top && n % 16 == 0)
  }

  function Grid(top: int): seq<int> {
    Range(8, Min(top + 1, 256), 8) + Range(256, top + 1, 16)
  }

  lemma GridExact(top: int, x: int)
    ensures x in Grid(top) <==> (8 <= x < Min(top + 1, 256) && x % 8 == 0) || (256 <= x <= top && x % 16 == 0)
  {
    RangeExact(8, Min(top + 1, 256), 8, x);
    RangeExact(256, top + 1, 16, x);
  }

  function Small(top: int): seq<int> { AtMost([1, 2, 4], top) }

  function AtMost(s: seq<int>, top: int): seq<int> {
    if |s| == 0 then [] else (if s[0] <= top then [s[0]] else []) + AtMost(s[1..], top)
  }

  lemma {:induction false} AtMostExact(s: seq<int>, top: int)
    ensures forall x :: x in AtMost(s, top) <==> x in s && x <= top
  {
    if |s| > 0 {
      AtMostExact(s[1..], top);
      assert s == [s[0]] + s[1..];
    }
  }

  method RequestCounts(maxReqs: nat, platformMax: nat) returns (counts: seq<int>)
    ensures StrictlyAscending(counts)
    ensures forall n :: n in counts <==> RequestCount(n, maxReqs, platformMax)
  {
    var top := Min(maxReqs, platformMax);
    var list := Small(top) + Grid(top) + [top];
    AtMostExact([1, 2, 4], top);
    SortedSetExact(list);
    counts := SortedSet(list);
    forall n
      ensures n in counts <==> RequestCount(n, maxReqs, platformMax)
    {
      GridExact(top, n);
    }
  }

  /** A decode size: a tier's query length times one of its request counts, within the limit. */
  predicate DecodeSizeAt(x: int, tier: (nat, nat), n: int, platformMax: nat, limit: int) {
    x == n * tier.0 <= limit && RequestCount(n, tier.1, platformMax)
  }

  ghost predicate DecodeSize(x: int, tiers: seq<(nat, nat)>, platformMax: nat, limit: int) {
    exists t: nat, n: int :: t < |tiers| && DecodeSizeAt(x, tiers[t], n, platformMax, limit)
  }

  method DecodeSizes(tiers: seq<(nat, nat)>, platformMax: nat, limit: int) returns (sizes: seq<int>)
    ensures forall x :: x in sizes <==> DecodeSize(x, tiers, platformMax, limit)
  {
    sizes := [];
    for t := 0 to |tiers|
      invariant forall x :: x in sizes <==>
                  exists u: nat, n: int :: u < t && DecodeSizeAt(x, tiers[u], n, platformMax, limit)
    {
      var counts := RequestCounts(tiers[t].1, platformMax);
      sizes := ScaleInto(sizes, counts, tiers[t], platformMax, limit);
    }
  }

  method ScaleInto(sizes: seq<int>, counts: seq<int>, tier: (nat, nat), platformMax: nat, limit: int)
    returns (more: seq<int>)
    requires forall n :: n in counts <==> RequestCount(n, tier.1, platformMax)
    ensures forall x :: x in more <==> x in sizes || exists n: int :: DecodeSizeAt(x, tier, n, platformMax, limit)
  {
    hide RequestCount;
    more := sizes;
    for q := 0 to |counts|
      invariant forall x :: x in sizes ==> x in more
      invariant forall x :: x in more ==> x in sizes || exists n: int :: DecodeSizeAt(x, tier, n, platformMax, limit)
      invariant forall p :: 0 <= p < q && counts[p] * tier.0 <= limit ==> counts[p] * tier.0 in more
    {
      assert counts[q] in counts;
      if counts[q] * tier.0 <= limit {
        assert DecodeSizeAt(counts[q] * tier.0, tier, counts[q], platformMax, limit);
        more := more + [counts[q] * tier.0];
      }
    }
  }

  // ----- the rule

  /** Sizes the rule picks by itself, under the limit. */
  ghost predicate DefaultSize(v: Setup, x: int, limit: int, decodeLimit: Option<int>) {
    || TokenSize(v, x, limit)
    || (decodeLimit.Some? && x <= v.maxNumTokens && DecodeSize(x, v.tiers, v.platformMax, decodeLimit.value))
  }

  /** The token-strided part. */
  predicate TokenSize(v: Setup, x: int, limit: int) {
    || (v.interactivity && 1 <= x <= Min(limit, 32))
    || (!v.interactivity && x <= limit && (x == 1 || x == 2 || x == 4))
    || (8 <= x < Min(limit + 1, 256) && x % 8 == 0) || (256 <= x <= limit && x % 16 == 0)
    || (x == v.maxNumTokens && x <= limit)
  }

  /** The widest capture the rule considers before the token limit. */
  function Ceiling(v: Setup, userMax: Option<int>): int {
    if userMax.Some? then userMax.value else Min(v.maxNumSeqs * v.queryLen * 2, v.platformMax)
  }

  function DecodeLimit(v: Setup, userMax: Option<int>): Option<int> {
    if userMax.None? && v.queryLen > 1 then Some(Ceiling(v, userMax)) else None
  }

  function Last(s: seq<int>): int { if |s| == 0 then 0 else s[|s| - 1] }

  lemma TokenPieces(v: Setup, limit: int, low: seq<int>, mid: seq<int>, high: seq<int>, x: int)
    requires low == if v.interactivity then Range(1, Min(limit, 32) + 1, 1) else Small(limit)
    requires mid == Range(8, Min(limit + 1, 256), 8) && high == Range(256, limit + 1, 16)
    ensures x in low || x in mid || x in high || (x == v.maxNumTokens && x <= limit) <==> TokenSize(v, x, limit)
  {
    AtMostExact([1, 2, 4], limit);
    RangeExact(1, Min(limit, 32) + 1, 1, x);
    RangeExact(8, Min(limit + 1, 256), 8, x);
    RangeExact(256, limit + 1, 16, x);
  }

  method TokenSizes(v: Setup, limit: int) returns (all: seq<int>)
    ensures forall x :: x in all <==> TokenSize(v, x, limit)
  {
    all := if v.interactivity then Range(1, Min(limit, 32) + 1, 1) else Small(limit);
    ghost var low := all;
    if limit >= 8 { all := all + Range(8, Min(limit + 1, 256), 8); }
    if limit >= 256 { all := all + Range(256, limit + 1, 16); }
    if v.maxNumTokens <= limit && v.maxNumTokens !in all { all := all + [v.maxNumTokens]; }
    ghost var mid, high := Range(8, Min(limit + 1, 256), 8), Range(256, limit + 1, 16);
    hide TokenSize;
    forall x
      ensures x in all <==> TokenSize(v, x, limit)
    {
      TokenPieces(v, limit, low, mid, high, x);
    }
  }

  method DefaultList(v: Setup, limit: int, userMax: Option<int>) returns (list: seq<int>)
    ensures StrictlyAscending(list)
    ensures forall x :: x in list <==> DefaultSize(v, x, limit, DecodeLimit(v, userMax))
  {
    hide SortedSet, AtMost, StrictlyAscending, TokenSize, DecodeSize;
    var all := TokenSizes(v, limit);
    if DecodeLimit(v, userMax).Some? {
      var sizes := DecodeSizes(v.tiers, v.platformMax, Ceiling(v, userMax));
      AtMostExact(sizes, v.maxNumTokens);
      all := all + AtMost(sizes, v.maxNumTokens);
    }
    SortedSetExact(all);
    list := SortedSet(all);
  }

  lemma DefaultBelow(v: Setup, x: int, limit: int, userMax: Option<int>)
    requires limit == Min(v.maxNumTokens, Ceiling(v, userMax)) && DefaultSize(v, x, limit, DecodeLimit(v, userMax))
    ensures x <= limit
  {
    if !TokenSize(v, x, limit) {
      var t: nat, n: int :| t < |v.tiers| && DecodeSizeAt(x, v.tiers[t], n, v.platformMax, Ceiling(v, userMax));
    }
  }

  /** Some size of the token grid is within a stride of the limit. */
  lemma GridReaches(v: Setup, limit: int) returns (x: int)
    requires 1 <= limit <= v.maxNumTokens
    ensures TokenSize(v, x, limit) && limit - 16 < x
    ensures limit == v.maxNumTokens ==> x == limit
  {
    if limit == v.maxNumTokens { return limit; }
    x := if limit < 8 then 1 else if limit < 256 then limit - limit % 8 else limit - limit % 16;
  }

  lemma LastIsLargest(s: seq<int>, x: int)
    requires StrictlyAscending(s) && x in s
    ensures Last(s) in s && x <= Last(s)
  {
  }

  /** The default list reaches the ceiling up to one stride, and exactly if the token limit is the ceiling. */
  lemma ReachesCap(v: Setup, s: seq<int>, limit: int, userMax: Option<int>)
    requires limit == Min(v.maxNumTokens, Ceiling(v, userMax)) >= 1
    requires StrictlyAscending(s) && forall x :: x in s <==> DefaultSize(v, x, limit, DecodeLimit(v, userMax))
    ensures limit - 16 < Last(s) <= limit && (limit == v.maxNumTokens ==> Last(s) == limit)
  {
    hide StrictlyAscending, TokenSize, DecodeSize, DecodeLimit, Ceiling, Last;
    var x := GridReaches(v, limit);
    assert DefaultSize(v, x, limit, DecodeLimit(v, userMax));
    LastIsLargest(s, x);
    DefaultBelow(v, Last(s), limit, userMax);
  }

  class CompilationConfig {
    var maxSize: Option<int>
    var sizes: Option<seq<int>>

    constructor (maxSize: Option<int>, sizes: Option<seq<int>>)
      ensures this.maxSize == maxSize && this.sizes == sizes
    {
      this.maxSize, this.sizes := maxSize, sizes;
    }

    /** _set_cudagraph_sizes with CUDA graphs enabled and no sequence parallelism. */
    method SetCudagraphSizes(v: Setup) returns (r: Outcome)
      modifies this
      ensures r == AssertionFailed <==> Min(v.maxNumTokens, Ceiling(v, old(maxSize))) < 1 || old(sizes) == Some([])
      ensures r != Done ==> maxSize == old(maxSize) && sizes == old(sizes)
      ensures r == Done ==> sizes.Some? && StrictlyAscending(sizes.value) && maxSize == Some(Last(sizes.value))
      ensures r == Done && old(sizes).Some? ==> forall x :: x in sizes.value <==>
                x in old(sizes).value && x <= v.maxNumTokens
      ensures r == Done && old(sizes).None? ==>
                forall x :: x in sizes.value <==>
                  DefaultSize(v, x, Min(v.maxNumTokens, Ceiling(v, old(maxSize))), DecodeLimit(v, old(maxSize)))
      ensures r == InconsistentMax <==>
                && Min(v.maxNumTokens, Ceiling(v, old(maxSize))) >= 1
                && old(sizes).Some? && old(sizes) != Some([]) && old(maxSize).Some?
                && old(maxSize).value != Last(SortedSet(AtMost(old(sizes).value, v.maxNumTokens)))
      ensures r == Done && old(sizes).Some? && old(maxSize).Some? ==> maxSize == old(maxSize)
      ensures var top := if old(maxSize).Some? then old(maxSize).value
                         else Min(v.maxNumSeqs * v.queryLen * 2, v.platformMax);
              var cap := Min(v.maxNumTokens, top);
              && (r == AssertionFailed <==> cap < 1 || old(sizes) == Some([]))
              && (r == Done && old(sizes).None? ==>
                    cap - 16 < Last(sizes.value) <= cap && (cap == v.maxNumTokens ==> Last(sizes.value) == cap))
    {
      hide StrictlyAscending, DefaultSize;
      var limit := Min(v.maxNumTokens, Ceiling(v, maxSize));
      if limit < 1 { return AssertionFailed; }
      var list;
      if sizes.Some? {
        if |sizes.value| == 0 { return AssertionFailed; }
        AtMostExact(sizes.value, v.maxNumTokens);
        SortedSetExact(AtMost(sizes.value, v.maxNumTokens));
        list := SortedSet(AtMost(sizes.value, v.maxNumTokens));
      } else {
        list := DefaultList(v, limit, maxSize);
        ReachesCap(v, list, limit, maxSize);
      }
      var validMax := Last(list);
      if maxSize.Some? && maxSize.value != validMax {
        if sizes.Some? { return InconsistentMax; }
      }
      maxSize, sizes := Some(validMax), Some(list);
      r := Done;
    }
  }

  /** The rule's own list starts at 1, stays within the limit, and is positive throughout. */
  lemma DefaultIsPositive(v: Setup, s: seq<int>, limit: int, userMax: Option<int>)
    requires v.maxNumTokens >= 1 && v.maxNumSeqs >= 1 && v.platformMax >= 1
    requires limit == Min(v.maxNumTokens, Ceiling(v, userMax)) >= 1
    requires forall t :: 0 <= t < |v.tiers| ==> v.tiers[t].0 >= 1 && v.tiers[t].1 >= 1
    requires StrictlyAscending(s) && forall x :: x in s <==> DefaultSize(v, x, limit, DecodeLimit(v, userMax))
    ensures 1 in s && forall x :: x in s ==> 1 <= x <= limit
    ensures 1 <= Last(s) <= limit
  {
    forall x | x in s
      ensures 1 <= x <= limit
    {
      if DecodeLimit(v, userMax).Some? && DecodeSize(x, v.tiers, v.platformMax, Ceiling(v, userMax)) {
        var t: nat, n: int :| t < |v.tiers| && DecodeSizeAt(x, v.tiers[t], n, v.platformMax, Ceiling(v, userMax));
        MulOrder(n, 0, v.tiers[t].0);
        MulOrder(1, n, v.tiers[t].0);
      }
    }
    assert DefaultSize(v, 1, limit, DecodeLimit(v, userMax));
    assert s[|s| - 1] in s;
  }
}
