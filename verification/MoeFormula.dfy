/** What the expert layer computes, written out: the clamped activation, one expert's output, and the weighted sum. */
module MoeFormula {
  import opened MoeMath
  import opened MoeKernel

  /** The inner product, written out. */
  function Inner(a: seq<real>, b: seq<real>): real
    requires |a| == |b|
  {
    Sum(seq(|a|, i requires 0 <= i < |a| => a[i] * b[i]))
  }

  lemma DotIsInner(a: seq<real>, b: seq<real>)
    requires |a| == |b|
    ensures Dot(a, b) == Inner(a, b)
  {
    assert Products(a, b) == seq(|a|, i requires 0 <= i < |a| => a[i] * b[i]);
  }

  /** Gate row r of expert e against x, straight from the packed bytes of w1. */
  ghost function GateDot(moe: Moe, e: nat, x: seq<real>, r: nat): real
    requires moe.Ok() && e < moe.E && r < moe.I() && |x| == moe.H()
  {
    Inner(Row(moe.ar, moe.bank.w1(e, r), moe.bank.s1(e, r), moe.hg), x)
  }

  /** Up row r of expert e against x, from w3. */
  ghost function UpDot(moe: Moe, e: nat, x: seq<real>, r: nat): real
    requires moe.Ok() && e < moe.E && r < moe.I() && |x| == moe.H()
  {
    Inner(Row(moe.ar, moe.bank.w3(e, r), moe.bank.s3(e, r), moe.hg), x)
  }

  /** h is the hidden unit of a gate product g and an up product u: silu(g) u when no limit is set and inside the
      limits; a gate above the limit counts as the limit and one below is never raised; an up product beyond either
      limit counts as that limit. */
  predicate Swiglu(ar: Arith, lim: real, g: real, u: real, h: real) {
    && (lim <= 0.0 ==> h == ar.silu(g) * u)
    && (lim > 0.0 && g <= lim && -lim <= u <= lim ==> h == ar.silu(g) * u)
    && (lim > 0.0 && g <= lim && u > lim ==> h == ar.silu(g) * lim)
    && (lim > 0.0 && g <= lim && u < -lim ==> h == ar.silu(g) * -lim)
    && (lim > 0.0 && g > lim && -lim <= u <= lim ==> h == ar.silu(lim) * u)
    && (lim > 0.0 && g > lim && u > lim ==> h == ar.silu(lim) * lim)
    && (lim > 0.0 && g > lim && u < -lim ==> h == ar.silu(lim) * -lim)
  }

  lemma ActivateExact(ar: Arith, lim: real, g: real, u: real)
    ensures Swiglu(ar, lim, g, u, Activate(ar, lim, g, u))
  {
  }

  lemma UnitIsActivated(moe: Moe, e: nat, x: seq<real>, r: nat)
    requires moe.Ok() && e < moe.E && r < moe.I() && |x| == moe.H()
    ensures moe.Unit(e, x, r) == Activate(moe.ar, moe.lim, GateDot(moe, e, x, r), UpDot(moe, e, x, r))
  {
    hide Row, Dot, Inner, Activate;
    DotIsInner(moe.Gate(e, r), x);
    DotIsInner(moe.Up(e, r), x);
  }

  lemma UnitExact(moe: Moe, e: nat, x: seq<real>, r: nat)
    requires moe.Ok() && e < moe.E && r < moe.I() && |x| == moe.H()
    ensures Swiglu(moe.ar, moe.lim, GateDot(moe, e, x, r), UpDot(moe, e, x, r), moe.Unit(e, x, r))
  {
    hide GateDot, UpDot, moe.Unit, Activate, Swiglu;
    UnitIsActivated(moe, e, x, r);
    ActivateExact(moe.ar, moe.lim, GateDot(moe, e, x, r), UpDot(moe, e, x, r));
  }

  /** One output of one expert: its w2 row against the hidden units. */
  lemma DownExact(moe: Moe, e: nat, x: seq<real>, j: nat)
    requires moe.Ok() && e < moe.E && j < moe.H() && |x| == moe.H()
    ensures moe.Down(e, x, j) ==
            Inner(Row(moe.ar, moe.bank.w2(e, j), moe.bank.s2(e, j), moe.ig),
                  seq(moe.I(), r requires 0 <= r < moe.I() => moe.Unit(e, x, r)))
  {
    hide Row, Dot, Inner, moe.Unit;
    assert moe.Hidden(e, x) == seq(moe.I(), r requires 0 <= r < moe.I() => moe.Unit(e, x, r));
    DotIsInner(Row(moe.ar, moe.bank.w2(e, j), moe.bank.s2(e, j), moe.ig), moe.Hidden(e, x));
  }

  /** One output of one token: every slot with an id in [0, E) adds its weight times its expert's output, any other slot
      nothing. */
  lemma {:induction false} CombinedExact(moe: Moe, ids: seq<int>, wts: seq<real>, x: seq<real>, j: nat, k: nat)
    requires moe.Ok() && |x| == moe.H() && j < moe.H() && k <= |ids| == |wts|
    ensures moe.Combined(ids, wts, x, j, k) ==
            Sum(seq(k, s requires 0 <= s < k =>
              if 0 <= ids[s] < moe.E then wts[s] * moe.Down(ids[s], x, j) else 0.0))
  {
    hide moe.Down;
    var terms := seq(k, s requires 0 <= s < k => if 0 <= ids[s] < moe.E then wts[s] * moe.Down(ids[s], x, j) else 0.0);
    if k > 0 {
      CombinedExact(moe, ids, wts, x, j, k - 1);
      var front := seq(k - 1, s requires 0 <= s < k - 1 =>
        if 0 <= ids[s] < moe.E then wts[s] * moe.Down(ids[s], x, j) else 0.0);
      assert terms[..k - 1] == front;
    }
  }
}
