/** Choosing a captured CUDA graph for a batch, with a FULL family for every uniform query length.
    Mode FULL_AND_PIECEWISE, no LoRA. */
module Dispatcher {
  import opened Basics
  import opened CaptureSizes

  datatype Mode = NoGraph | Piecewise | Full

  datatype Desc = Desc(numTokens: int, numReqs: Option<int>, uniform: bool)

  /** What the sizing rule leaves behind: ascending positive sizes, the last of them recorded as the maximum. */
  ghost predicate Captured(sizes: seq<int>) {
    |sizes| > 0 && StrictlyAscending(sizes) && forall x :: x in sizes ==> x >= 1
  }

  // ----- quotients

  lemma Quotient(p: int, q: int, d: int)
    requires q > 0
    ensures p == q * d ==> p / q == d && p % q == 0
    ensures p % q == 0 ==> p == q * (p / q)
  {
    DivMod(d, q, 0);
  }

  lemma QuotientOrder(p: int, q: int, s: int)
    requires q > 0 && p % q == 0
    ensures p / q <= s <==> p <= q * s
  {
    MulOrder(p / q, s, q);
    MulOrder(s, p / q, q);
  }

  // ----- the least captured size

  /** The smallest captured size that holds n tokens and is a multiple of q. */
  ghost predicate IsLeast(sizes: seq<int>, n: int, q: int, p: int)
    requires q > 0
  {
    p in sizes && p >= n && p % q == 0 && forall t :: t in sizes && t >= n && t % q == 0 ==> p <= t
  }

  function FirstFit(sizes: seq<int>, n: int, q: int): Option<int>
    requires q > 0
  {
    if |sizes| == 0 then None
    else if sizes[0] >= n && sizes[0] % q == 0 then Some(sizes[0])
    else FirstFit(sizes[1..], n, q)
  }

  lemma {:induction false} FirstFitIsLeast(sizes: seq<int>, n: int, q: int)
    requires q > 0 && StrictlyAscending(sizes)
    ensures match FirstFit(sizes, n, q)
            case Some(p) => IsLeast(sizes, n, q, p)
            case None => forall t :: t in sizes && t >= n ==> t % q != 0
  {
    if |sizes| > 0 {
      FirstFitIsLeast(sizes[1..], n, q);
      assert sizes == [sizes[0]] + sizes[1..];
      assert forall t :: t in sizes[1..] ==> sizes[0] < t;
    }
  }

  /** A captured size is its own padding. */
  lemma {:induction false} LeastUnique(sizes: seq<int>, n: int, q: int, p: int, p': int)
    requires q > 0 && IsLeast(sizes, n, q, p) && IsLeast(sizes, n, q, p')
    ensures p == p'
  {
  }

  // ----- families of keys

  /** Families exist for the full query length, and for the shorter ones when the flag is on. */
  predicate Family(f: int, Q: int, flag: bool) { 1 <= f <= Q && (flag || f == Q) }

  predicate InFamily(sizes: seq<int>, S: int, Q: int, flag: bool, d: Desc, f: int) {
    && Family(f, Q, flag) && d.uniform && d.numTokens in sizes && d.numTokens % f == 0
    && d.numReqs == Some(d.numTokens / f) && d.numTokens / f <= S
  }

  ghost predicate FullKey(sizes: seq<int>, S: int, Q: int, flag: bool, d: Desc) {
    exists f: int :: InFamily(sizes, S, Q, flag, d, f)
  }

  predicate PiecewiseKey(sizes: seq<int>, d: Desc) {
    d.numTokens in sizes && d.numReqs == None && !d.uniform
  }

  /** The query length recovered from a key at capture is its family's. */
  lemma CaptureRecovers(sizes: seq<int>, S: int, Q: int, flag: bool, d: Desc, f: int)
    requires Captured(sizes) && InFamily(sizes, S, Q, flag, d, f)
    ensures d.numReqs.value > 0 && d.numTokens / d.numReqs.value == f
  {
    Quotient(d.numTokens, f, 0);
    assert d.numTokens in sizes;
    var r := d.numReqs.value;
    if r <= 0 { NonPositive(f, r); }
    Quotient(d.numTokens, r, f);
  }

  lemma NonPositive(f: int, r: int)
    requires f > 0 && r <= 0
    ensures f * r <= 0
  {
  }

  /** The clamped descriptor of p tokens at query length q is a key exactly when p needs at most S requests, or
      splits evenly into S requests of some longer family's length. */
  ghost predicate ReplaysFull(S: int, Q: int, flag: bool, q: int, p: int)
    requires S > 0
  {
    || (p <= q * S && Family(q, Q, flag))
    || (p > q * S && p % S == 0 && Family(p / S, Q, flag))
  }

  lemma KeyExact(sizes: seq<int>, S: int, Q: int, flag: bool, q: int, p: int)
    requires S > 0 && q >= 1 && p in sizes && p % q == 0 && p >= 1
    ensures FullKey(sizes, S, Q, flag, Desc(p, Some(Min(p / q, S)), true)) <==> ReplaysFull(S, Q, flag, q, p)
  {
    var d := Desc(p, Some(Min(p / q, S)), true);
    QuotientOrder(p, q, S);
    if ReplaysFull(S, Q, flag, q, p) {
      if p <= q * S {
        assert InFamily(sizes, S, Q, flag, d, q);
      } else {
        Quotient(p, S, p / S);
        Quotient(p, p / S, S);
        assert InFamily(sizes, S, Q, flag, d, p / S);
      }
    }
    if FullKey(sizes, S, Q, flag, d) {
      var f: int :| InFamily(sizes, S, Q, flag, d, f);
      FamilyOf(sizes, S, Q, flag, q, p, f);
    }
  }

  lemma FamilyOf(sizes: seq<int>, S: int, Q: int, flag: bool, q: int, p: int, f: int)
    requires S > 0 && q >= 1 && p % q == 0 && p >= 1
    requires InFamily(sizes, S, Q, flag, Desc(p, Some(Min(p / q, S)), true), f)
    ensures ReplaysFull(S, Q, flag, q, p)
  {
    QuotientOrder(p, q, S);
    Quotient(p, f, 0);
    Quotient(p, q, 0);
    if p <= q * S {
      SameQuotient(p, q, f);
    } else {
      Quotient(p, S, f);
    }
  }

  lemma SameQuotient(p: int, q: int, f: int)
    requires p >= 1 && q >= 1 && f >= 1 && p == q * (p / q) && p == f * (p / f) && p / q == p / f
    ensures q == f
  {
    var r := p / q;
    if r <= 0 { NonPositive(q, r); }
    Quotient(p, r, q);
    Quotient(p, r, f);
  }

  /** An entry of the padding table. */
  ghost predicate PaddedTo(sizes: seq<int>, n: int, p: int) {
    if n == 0 then p == 0 else IsLeast(sizes, n, 1, p)
  }

  lemma PadBetween(sizes: seq<int>, i: nat, start: int, n: int)
    requires Captured(sizes) && i <= |sizes| && start == if i == 0 then 0 else sizes[i - 1]
    ensures i > 0 ==> PaddedTo(sizes, start, start)
    ensures i < |sizes| && start < n <= sizes[i] ==> PaddedTo(sizes, n, sizes[i])
  {
    if i > 0 { assert sizes[i - 1] in sizes; }
  }

  lemma PadZero(sizes: seq<int>)
    ensures PaddedTo(sizes, 0, 0)
  {
  }

  /** What a descriptor says of n tokens at query length q. */
  ghost predicate Describes(sizes: seq<int>, S: int, n: int, uniform: bool, q: int, d: Desc)
    requires q > 0
  {
    && (d.uniform <==> uniform && exists p :: IsLeast(sizes, n, q, p))
    && (d.uniform ==> IsLeast(sizes, n, q, d.numTokens) && d.numReqs == Some(Min(d.numTokens / q, S)))
    && (!d.uniform ==> IsLeast(sizes, n, 1, d.numTokens) && d.numReqs == Some(Min(d.numTokens, S)))
  }

  class CudagraphDispatcher {
    const sizes: seq<int>
    const maxNumSeqs: int
    const queryLen: int          // 1 + number of speculative tokens
    const flag: bool             // DSV41_FULL_Q1
    const table: array<int>
    var full: set<Desc>
    var piecewise: set<Desc>
    var keysInitialized: bool

    ghost predicate Ok() {
      Captured(sizes) && maxNumSeqs >= 1 && queryLen >= 1 && table.Length == Last(sizes) + 1
    }

    ghost predicate TableFilled()
      requires Ok()
      reads table
    {
      forall n :: 0 <= n <= Last(sizes) ==> PaddedTo(sizes, n, table[n])
    }

    ghost predicate KeysReady()
      reads this, table
    {
      && Ok() && TableFilled() && keysInitialized
      && (forall d :: d in full <==> FullKey(sizes, maxNumSeqs, queryLen, flag, d))
      && (forall d :: d in piecewise <==> PiecewiseKey(sizes, d))
    }

    constructor (sizes: seq<int>, maxNumSeqs: int, queryLen: int, flag: bool)
      requires Captured(sizes) && maxNumSeqs >= 1 && queryLen >= 1
      ensures Ok() && fresh(table) && !keysInitialized && full == {} && piecewise == {}
      ensures this.sizes == sizes && this.maxNumSeqs == maxNumSeqs && this.queryLen == queryLen && this.flag == flag
    {
      this.sizes, this.maxNumSeqs, this.queryLen, this.flag := sizes, maxNumSeqs, queryLen, flag;
      full, piecewise, keysInitialized := {}, {}, false;
      assert sizes[|sizes| - 1] in sizes;
      table := new int[sizes[|sizes| - 1] + 1](_ => 0);
    }

    /** The two nested loops over neighbouring captured sizes. */
    method ComputeTable()
      requires Ok()
      modifies table
      ensures TableFilled()
    {
      var max := Last(sizes);
      assert sizes[|sizes| - 1] in sizes;
      for i := 0 to |sizes| + 1
        invariant forall n :: 0 <= n < (if i == 0 then 0 else if i <= |sizes| then sizes[i - 1] else max + 1) ==>
                    PaddedTo(sizes, n, table[n])
      {
        var start := if i == 0 then 0 else sizes[i - 1];
        var end := if i < |sizes| then sizes[i] else max + 1;
        FillStretch(i, start, end);
      }
    }

    method FillStretch(i: nat, start: int, end: int)
      requires Ok() && i <= |sizes| && start == (if i == 0 then 0 else sizes[i - 1])
      requires end == if i < |sizes| then sizes[i] else Last(sizes) + 1
      requires forall n :: 0 <= n < start <= Last(sizes) ==> PaddedTo(sizes, n, table[n])
      modifies table
      ensures forall n :: 0 <= n < end ==> PaddedTo(sizes, n, table[n])
    {
      hide PaddedTo;
      StretchBounds(i, start, end);
      var bs := start;
      while bs < end
        invariant start <= bs <= end
        invariant forall n :: 0 <= n < bs ==> PaddedTo(sizes, n, table[n])
      {
        PadBetween(sizes, i, start, bs);
        PadZero(sizes);
        table[bs] := if bs == start then start else end;
        bs := bs + 1;
      }
    }

    lemma StretchBounds(i: nat, start: int, end: int)
      requires Ok() && i <= |sizes| && start == (if i == 0 then 0 else sizes[i - 1])
      requires end == if i < |sizes| then sizes[i] else Last(sizes) + 1
      ensures 0 <= start < end <= Last(sizes) + 1
      ensures i == |sizes| ==> end == start + 1
    {
      if i > 0 { assert sizes[i - 1] in sizes; }
      if i < |sizes| { assert sizes[i] in sizes; }
    }

    /** _create_padded_batch_descriptor without LoRA; q names the uniform query length, 0 or None the default. */
    method Describe(n: int, uniform: bool, q: Option<int>) returns (d: Desc)
      requires Ok() && TableFilled() && 1 <= n <= Last(sizes) && (q.Some? ==> q.value >= 0)
      ensures Describes(sizes, maxNumSeqs, n, uniform, if q.Some? && q.value > 0 then q.value else queryLen, d)
    {
      var ql := if q.Some? && q.value > 0 then q.value else queryLen;
      var padded := table[n];
      assert PaddedTo(sizes, n, padded);
      var isUniform := uniform;
      if isUniform && padded % ql != 0 {
        FirstFitIsLeast(sizes, n, ql);
        match FirstFit(sizes, n, ql)
        case Some(p) => padded := p;
        case None => isUniform := false;
      }
      d := if isUniform then Desc(padded, Some(Min(padded / ql, maxNumSeqs)), true)
           else Desc(padded, Some(Min(padded, maxNumSeqs)), false);
    }

    /** All keys of family f: the sizes it divides that need at most maxNumSeqs requests. */
    method AddFamily(f: int)
      requires Ok() && TableFilled() && Family(f, queryLen, flag)
      modifies this`full
      ensures forall d :: d in full <==> d in old(full) || InFamily(sizes, maxNumSeqs, queryLen, flag, d, f)
    {
      for i := 0 to |sizes|
        invariant forall d :: d in full <==>
                    d in old(full) || (InFamily(sizes, maxNumSeqs, queryLen, flag, d, f) && d.numTokens in sizes[..i])
      {
        var x := sizes[i];
        assert x in sizes && sizes[..i + 1] == sizes[..i] + [x];
        FilterAgrees(x, f);
        if (f == queryLen && x <= queryLen * maxNumSeqs && x >= queryLen && x % queryLen == 0)
           || (f != queryLen && x % f == 0 && x / f <= maxNumSeqs) {
          LargestIsLast(x);
          var d := Describe(x, true, Some(f));
          OwnPadding(x, f, d);
          full := full + {d};
        }
      }
      assert sizes[..|sizes|] == sizes;
    }

    /** The default family's filter is the others' in different words. */
    lemma FilterAgrees(x: int, f: int)
      requires Ok() && f >= 1 && x in sizes
      ensures x % f == 0 ==> x >= f && (x <= f * maxNumSeqs <==> x / f <= maxNumSeqs)
    {
      if x % f == 0 {
        QuotientOrder(x, f, maxNumSeqs);
        QuotientOrder(x, f, 0);
        Quotient(x, f, 0);
        MulOrder(1, x / f, f);
      }
    }

    lemma LargestIsLast(x: int)
      requires Ok() && x in sizes
      ensures 1 <= x <= Last(sizes)
    {
    }

    lemma OwnPadding(x: int, f: int, d: Desc)
      requires Ok() && x in sizes && f >= 1 && x % f == 0 && Describes(sizes, maxNumSeqs, x, true, f, d)
      requires x / f <= maxNumSeqs
      ensures d == Desc(x, Some(x / f), true)
    {
      assert IsLeast(sizes, x, f, x);
    }

    /** initialize_cudagraph_keys for FULL_AND_PIECEWISE. */
    method InitializeKeys()
      requires Ok() && full == {} && piecewise == {}
      modifies this`full, this`piecewise, this`keysInitialized, table
      ensures KeysReady()
    {
      ComputeTable();
      for i := 0 to |sizes|
        invariant TableFilled() && full == {}
        invariant forall d :: d in piecewise <==> PiecewiseKey(sizes[..i], d)
      {
        var x := sizes[i];
        assert x in sizes && sizes[..i + 1] == sizes[..i] + [x];
        LargestIsLast(x);
        var d := Describe(x, false, None);
        assert IsLeast(sizes, x, 1, x);
        piecewise := piecewise + {Desc(d.numTokens, None, false)};
      }
      assert sizes[..|sizes|] == sizes;
      AddFamilies();
      keysInitialized := true;
    }

    method AddFamilies()
      requires Ok() && TableFilled() && full == {}
      modifies this`full
      ensures forall d :: d in full <==> FullKey(sizes, maxNumSeqs, queryLen, flag, d)
    {
      hide InFamily;
      AddFamily(queryLen);
      ghost var top := 1;
      if queryLen > 1 && flag {
        for q := 1 to queryLen
          invariant forall d :: d in full <==>
                      || InFamily(sizes, maxNumSeqs, queryLen, flag, d, queryLen)
                      || exists f: int :: 1 <= f < q && InFamily(sizes, maxNumSeqs, queryLen, flag, d, f)
        {
          AddFamily(q);
        }
        top := queryLen;
      }
      OnlyFamilies(top);
    }

    lemma OnlyFamilies(top: int)
      requires Ok() && 1 <= top <= queryLen && (flag ==> top == queryLen)
      ensures forall d, f: int :: InFamily(sizes, maxNumSeqs, queryLen, flag, d, f) ==> f == queryLen || 1 <= f < top
    {
    }

    /** The query length a step is padded for: the one the caller names, or the dispatcher's own. */
    function QueryLength(q: Option<int>): int { if q.Some? && q.value != 0 then q.value else queryLen }

    /** dispatch: None is the assertion that some allowed mode matches. */
    method Dispatch(n: int, uniform: bool, q: Option<int>, allowed: set<Mode>) returns (r: Option<(Mode, Desc)>)
      requires KeysReady() && n >= 1 && (q.Some? ==> q.value >= 0)
      ensures allowed == {} ==> r == None
      ensures n > Last(sizes) && allowed != {} ==> r == Some((NoGraph, Desc(n, None, false)))
      ensures n <= Last(sizes) && Piecewise in allowed ==>
                r.Some? && r.value.0 != NoGraph && r.value.1.numTokens in sizes && r.value.1.numTokens >= n
      ensures n <= Last(sizes) && r.Some? && r.value.0 == Piecewise ==>
                r.value.1 == Desc(r.value.1.numTokens, None, false) && Piecewise in allowed
      ensures n <= Last(sizes) && uniform && Full in allowed ==>
                ((r.Some? && r.value.0 == Full) <==>
                 exists p :: IsLeast(sizes, n, QueryLength(q), p)
                             && ReplaysFull(maxNumSeqs, queryLen, flag, QueryLength(q), p))
      ensures n <= Last(sizes) && uniform && r.Some? && r.value.0 == Full ==>
                IsLeast(sizes, n, QueryLength(q), r.value.1.numTokens)
                && r.value.1.numReqs == Some(Min(r.value.1.numTokens / QueryLength(q), maxNumSeqs))
      ensures n <= Last(sizes) && r.Some? && r.value.0 == Full ==> uniform && Full in allowed && r.value.1.uniform
      ensures n <= Last(sizes) && r.Some? && r.value.0 == Piecewise ==>
                if uniform && exists p :: IsLeast(sizes, n, QueryLength(q), p)
                then IsLeast(sizes, n, QueryLength(q), r.value.1.numTokens)
                else IsLeast(sizes, n, 1, r.value.1.numTokens)
      ensures r.Some? && r.value.0 == NoGraph ==> r.value.1 == Desc(n, None, false)
      ensures n <= Last(sizes) && r.Some? && r.value.0 == NoGraph ==> NoGraph in allowed && Piecewise !in allowed
      ensures r.None? ==> allowed == {} || (n <= Last(sizes) && Piecewise !in allowed && NoGraph !in allowed)
    {
      if allowed == {} { return None; }
      if n > Last(sizes) || allowed <= {NoGraph} {
        return Some((NoGraph, Desc(n, None, false)));
      }
      var d := Describe(n, uniform, if uniform then q else None);
      if uniform { UniformDispatch(n, QueryLength(q), d); }
      if Full in allowed && d in full {
        return Some((Full, d));
      }
      if Piecewise in allowed && Desc(d.numTokens, None, false) in piecewise {
        return Some((Piecewise, Desc(d.numTokens, None, false)));
      }
      if NoGraph in allowed { return Some((NoGraph, Desc(n, None, false))); }
      r := None;
    }

    lemma UniformDispatch(n: int, q: int, d: Desc)
      requires Ok() && 1 <= n && q >= 1 && Describes(sizes, maxNumSeqs, n, true, q, d)
      ensures FullKey(sizes, maxNumSeqs, queryLen, flag, d) <==>
                exists p :: IsLeast(sizes, n, q, p) && ReplaysFull(maxNumSeqs, queryLen, flag, q, p)
    {
      hide ReplaysFull, FullKey;
      if d.uniform {
        KeyExact(sizes, maxNumSeqs, queryLen, flag, q, d.numTokens);
        forall p | IsLeast(sizes, n, q, p)
          ensures p == d.numTokens
        {
          LeastUnique(sizes, n, q, p, d.numTokens);
        }
      } else {
        NotUniform(d);
      }
    }

    lemma NotUniform(d: Desc)
      requires !d.uniform
      ensures !FullKey(sizes, maxNumSeqs, queryLen, flag, d)
    {
    }
  }

  /** The runner's test for a uniform step, from the largest request, the sum of the requests and their number. */
  predicate UniformStep(maxQuery: int, numTokens: int, numReqs: int, Q: int, flag: bool) {
    || (maxQuery == Q && numTokens == maxQuery * numReqs)
    || (Q > 1 && 1 <= maxQuery < Q && numTokens == maxQuery * numReqs && flag)
  }

  /** The sizing rule hands the dispatcher what it needs. */
  lemma RuleIsCaptured(v: Setup, sizes: seq<int>, limit: int, userMax: Option<int>)
    requires v.maxNumTokens >= 1 && v.maxNumSeqs >= 1 && v.platformMax >= 1
    requires limit == Min(v.maxNumTokens, Ceiling(v, userMax)) >= 1
    requires forall t :: 0 <= t < |v.tiers| ==> v.tiers[t].0 >= 1 && v.tiers[t].1 >= 1
    requires StrictlyAscending(sizes) && forall x :: x in sizes <==> DefaultSize(v, x, limit, DecodeLimit(v, userMax))
    ensures Captured(sizes)
  {
    DefaultIsPositive(v, sizes, limit, userMax);
  }

  /** Configured sizes the dispatcher can work with: one is within the token limit, and those within it are positive. */
  ghost predicate Usable(user: seq<int>, maxNumTokens: int) {
    && (exists x :: x in user && x <= maxNumTokens)
    && forall x :: x in user && x <= maxNumTokens ==> x >= 1
  }

  lemma UserSizesCaptured(user: seq<int>, maxNumTokens: int, sizes: seq<int>)
    requires StrictlyAscending(sizes) && forall x :: x in sizes <==> x in user && x <= maxNumTokens
    ensures Captured(sizes) <==> Usable(user, maxNumTokens)
  {
    if |sizes| > 0 { assert sizes[0] in sizes; }
  }

  /** What sizing leaves behind: the default rule always suits the dispatcher, configured sizes exactly when they are
      usable. */
  method SizeGraphs(config: CompilationConfig, v: Setup) returns (r: CaptureSizes.Outcome)
    requires v.maxNumTokens >= 1 && v.maxNumSeqs >= 1 && v.platformMax >= 1
    requires forall t :: 0 <= t < |v.tiers| ==> v.tiers[t].0 >= 1 && v.tiers[t].1 >= 1
    modifies config
    ensures r == CaptureSizes.AssertionFailed <==>
              Min(v.maxNumTokens, Ceiling(v, old(config.maxSize))) < 1 || old(config.sizes) == Some([])
    ensures r == CaptureSizes.InconsistentMax ==> old(config.sizes).Some? && old(config.maxSize).Some?
    ensures r == CaptureSizes.Done ==>
              && config.sizes.Some? && config.maxSize == Some(Last(config.sizes.value))
              && (Captured(config.sizes.value) <==>
                  old(config.sizes).None? || Usable(old(config.sizes).value, v.maxNumTokens))
  {
    hide DefaultSize, StrictlyAscending, Captured, Usable;
    var user, userMax := config.sizes, config.maxSize;
    r := config.SetCudagraphSizes(v);
    if r == CaptureSizes.Done {
      if user.Some? {
        UserSizesCaptured(user.value, v.maxNumTokens, config.sizes.value);
      } else {
        RuleIsCaptured(v, config.sizes.value, Min(v.maxNumTokens, Ceiling(v, userMax)), userMax);
      }
    }
  }

  /** Under the default rule every decode batch of r requests at a tier's query length, up to a captured request count
      of the tier, replays a FULL graph of that length's family: the decode sizes leave no gap below the widest one
      that fits. */
  lemma DecodeCovered(v: Setup, sizes: seq<int>, limit: int, flag: bool, t: nat, r: int, n: int)
    requires v.queryLen > 1 && v.maxNumSeqs >= 1 && t < |v.tiers|
    requires var (q, widest) := v.tiers[t]; Family(q, v.queryLen, flag) && widest <= v.maxNumSeqs
    requires limit == Min(v.maxNumTokens, Ceiling(v, None))
    requires StrictlyAscending(sizes) && forall x :: x in sizes <==> DefaultSize(v, x, limit, DecodeLimit(v, None))
    requires 1 <= r <= n && RequestCount(n, v.tiers[t].1, v.platformMax) && n * v.tiers[t].0 <= limit
    ensures var q := v.tiers[t].0;
            exists p :: IsLeast(sizes, r * q, q, p) && ReplaysFull(v.maxNumSeqs, v.queryLen, flag, q, p)
  {
    hide StrictlyAscending, RequestCount, TokenSize;
    var q, L := v.tiers[t].0, n * v.tiers[t].0;
    assert DecodeSizeAt(L, v.tiers[t], n, v.platformMax, Ceiling(v, None));
    assert DefaultSize(v, L, limit, DecodeLimit(v, None));
    CountWithin(n, v.tiers[t].1, v.platformMax);
    CoveredBy(sizes, q, r, n, v.maxNumSeqs, v.queryLen, flag);
  }

  lemma CountWithin(n: int, maxReqs: nat, platformMax: nat)
    requires RequestCount(n, maxReqs, platformMax)
    ensures n <= maxReqs
  {
  }

  lemma CoveredBy(sizes: seq<int>, q: int, r: int, n: int, S: int, Q: int, flag: bool)
    requires StrictlyAscending(sizes) && n * q in sizes && 1 <= q && 1 <= r <= n <= S && Family(q, Q, flag)
    ensures exists p :: IsLeast(sizes, r * q, q, p) && ReplaysFull(S, Q, flag, q, p)
  {
    var need, have := r * q, n * q;
    Quotient(have, q, n);
    MulOrder(r, n, q);
    MulOrder(n, S, q);
    var p := LeastBelow(sizes, need, q, have);
    hide StrictlyAscending, IsLeast, Family;
    assert p <= q * S;
    assert ReplaysFull(S, Q, flag, q, p);
  }

  /** A captured multiple that holds the tokens bounds the least one. */
  lemma LeastBelow(sizes: seq<int>, need: int, q: int, have: int) returns (p: int)
    requires StrictlyAscending(sizes) && q >= 1 && have in sizes && have >= need && have % q == 0
    ensures IsLeast(sizes, need, q, p) && p <= have
  {
    FirstFitIsLeast(sizes, need, q);
    p := FirstFit(sizes, need, q).value;
  }

  /** Tokens of a step and its widest request. */
  function Total(lens: seq<nat>): nat { if |lens| == 0 then 0 else Total(lens[..|lens| - 1]) + lens[|lens| - 1] }

  function Widest(lens: seq<nat>): nat {
    if |lens| == 0 then 0 else Max(Widest(lens[..|lens| - 1]), lens[|lens| - 1])
  }

  lemma {:induction false} WidestIsLargest(lens: seq<nat>)
    requires |lens| > 0
    ensures Widest(lens) in lens && forall i :: 0 <= i < |lens| ==> lens[i] <= Widest(lens)
  {
    if |lens| > 1 { WidestIsLargest(lens[..|lens| - 1]); }
  }

  predicate AllAre(lens: seq<nat>, b: nat) { forall i :: 0 <= i < |lens| ==> lens[i] == b }

  /** Lengths bounded by b sum to b per request exactly when each is b. */
  lemma {:induction false} FullSum(lens: seq<nat>, b: nat)
    requires forall i :: 0 <= i < |lens| ==> lens[i] <= b
    ensures Total(lens) <= |lens| * b
    ensures Total(lens) == |lens| * b <==> AllAre(lens, b)
  {
    if |lens| > 0 {
      var n := |lens| - 1;
      FullSum(lens[..n], b);
      Distribute(n, 1, b);
      LastIs(lens, b);
      hide AllAre;
      assert Total(lens) == Total(lens[..n]) + lens[n] && lens[n] <= b;
    }
  }

  lemma LastIs(lens: seq<nat>, b: nat)
    requires |lens| > 0
    ensures AllAre(lens, b) <==> AllAre(lens[..|lens| - 1], b) && lens[|lens| - 1] == b
  {
    var n := |lens| - 1;
    if AllAre(lens[..n], b) {
      forall i | 0 <= i < n
        ensures lens[i] == b
      {
        assert lens[..n][i] == b;
      }
    }
  }

  /** The runner calls a step uniform exactly when all its requests have one length and that length has a family. */
  lemma StepHasFamily(lens: seq<nat>, Q: int, flag: bool)
    requires |lens| > 0 && Q >= 1
    ensures UniformStep(Widest(lens), Total(lens), |lens|, Q, flag)
            <==> Family(lens[0], Q, flag) && AllAre(lens, lens[0])
  {
    WidestIsLargest(lens);
    FullSum(lens, Widest(lens));
    hide Total, Widest;
  }

  /** The length recovered from the replayed key: the step's own while the padded batch fits, otherwise, because the
      request count is clamped, that of a strictly longer family. */
  lemma ReplayedLength(S: int, Q: int, flag: bool, q: int, p: int)
    requires S >= 1 && q >= 1 && p >= 1 && p % q == 0 && ReplaysFull(S, Q, flag, q, p)
    ensures Min(p / q, S) >= 1
    ensures p / Min(p / q, S) == if p <= q * S then q else p / S
    ensures p > q * S ==> p / S > q
  {
    QuotientOrder(p, q, S);
    QuotientOrder(p, q, 0);
    Quotient(p, q, 0);
    if p <= q * S {
      Quotient(p, p / q, q);
    } else {
      QuotientOrder(p, S, q);
      MulOrder(q, q, S);
    }
  }
}
