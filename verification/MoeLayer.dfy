/** The layer object: interleaved expert weights, and the scratch rows that survive between calls. */
module MoeLayer {
  import opened NumberFormats
  import opened MoeMath
  import opened MoeKernel

  /** Rows of the given length. */
  ghost predicate Rows<T>(rows: seq<seq<T>>, n: nat) {
    forall i :: 0 <= i < |rows| ==> |rows[i]| == n
  }

  class Layer {
    const ar: Arith
    const E: nat
    const hg: nat
    const ig: nat
    const lim: real
    const w13: array2<seq<uint8>>   // [E][I] rows of w1 bytes, then w3 bytes
    const s13: array2<seq<uint8>>
    const w2: array2<seq<uint8>>    // [E][H]
    const s2: array2<seq<uint8>>
    var xp: array<seq<real>>        // scratch that only grows: H values a token
    var hp: array<seq<real>>        // I values a pair
    var yp: array<seq<real>>        // H values a pair

    constructor (ar: Arith, E: nat, hg: nat, ig: nat, lim: real)
      ensures this.ar == ar && this.E == E && this.hg == hg && this.ig == ig && this.lim == lim
      ensures Shaped() && fresh(w13) && fresh(s13) && fresh(w2) && fresh(s2)
      ensures Scratch() && fresh(xp) && fresh(hp) && fresh(yp)
    {
      this.ar, this.E, this.hg, this.ig, this.lim := ar, E, hg, ig, lim;
      w13 := new seq<uint8>[E, ig * 32]((e, r) => seq(hg * 32, _ => 0));
      s13 := new seq<uint8>[E, ig * 32]((e, r) => seq(hg * 2, _ => 0));
      w2 := new seq<uint8>[E, hg * 32]((e, r) => seq(ig * 16, _ => 0));
      s2 := new seq<uint8>[E, hg * 32]((e, r) => seq(ig, _ => 0));
      xp, hp, yp := new seq<real>[0], new seq<real>[0], new seq<real>[0];
    }

    ghost predicate Shaped() {
      && w13.Length0 == E && w13.Length1 == ig * 32 && s13.Length0 == E && s13.Length1 == ig * 32
      && w2.Length0 == E && w2.Length1 == hg * 32 && s2.Length0 == E && s2.Length1 == hg * 32
      && w13 != s13 && w13 != w2 && w13 != s2 && s13 != w2 && s13 != s2 && w2 != s2
    }

    /** The scratch rows have the layer's widths; what is in them is left over from earlier calls. */
    ghost predicate Scratch()
      reads this, xp, hp, yp
    {
      && Rows(xp[..], hg * 32) && Rows(hp[..], ig * 32) && Rows(yp[..], hg * 32)
      && xp != hp && xp != yp && hp != yp
    }

    /** Row r of expert e: gate bytes before up bytes, gate scales before up scales. */
    ghost predicate GateUpHolds(bank: Bank, e: nat, r: nat)
      requires Shaped() && e < E && r < ig * 32
      reads w13, s13
    {
      && |w13[e, r]| == hg * 32 && |s13[e, r]| == hg * 2
      && w13[e, r][..hg * 16] == bank.w1(e, r) && w13[e, r][hg * 16..] == bank.w3(e, r)
      && s13[e, r][..hg] == bank.s1(e, r) && s13[e, r][hg..] == bank.s3(e, r)
    }

    ghost predicate ExpertHolds(bank: Bank, e: nat)
      requires Shaped() && e < E
      reads w13, s13, w2, s2
    {
      && (forall r: nat :: r < ig * 32 ==> GateUpHolds(bank, e, r))
      && (forall r: nat :: r < hg * 32 ==> w2[e, r] == bank.w2(e, r) && s2[e, r] == bank.s2(e, r))
    }

    ghost predicate Holds(moe: Moe)
      reads w13, s13, w2, s2
    {
      && Shaped() && moe.Ok() && moe.ar == ar && moe.E == E && moe.hg == hg && moe.ig == ig && moe.lim == lim
      && forall e: nat :: e < E ==> ExpertHolds(moe.bank, e)
    }

    /** Scratch grows when the batch needs more rows; existing rows are kept. */
    method Reserve(tokens: nat, pairs: nat)
      requires Scratch()
      modifies this`xp, this`hp, this`yp
      ensures Scratch() && xp.Length >= tokens && hp.Length >= pairs && yp.Length >= pairs
      ensures (xp == old(xp) || fresh(xp)) && (hp == old(hp) || fresh(hp)) && (yp == old(yp) || fresh(yp))
      ensures old(xp[..]) <= xp[..] && old(hp[..]) <= hp[..] && old(yp[..]) <= yp[..]
    {
      if xp.Length < tokens { xp := Grown(xp, tokens, hg * 32); }
      if hp.Length < pairs { hp := Grown(hp, pairs, ig * 32); }
      if yp.Length < pairs { yp := Grown(yp, pairs, hg * 32); }
    }
  }

  method Grown(rows: array<seq<real>>, n: nat, width: nat) returns (more: array<seq<real>>)
    requires rows.Length < n && Rows(rows[..], width)
    ensures fresh(more) && more.Length == n && Rows(more[..], width) && rows[..] <= more[..]
  {
    var was := rows[..];
    more := new seq<real>[n](i requires 0 <= i < n => if i < |was| then was[i] else seq(width, _ => 0.0));
    assert more[..|was|] == was;
  }
}
