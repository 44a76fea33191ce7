/** What one row of the expert kernel means: MXFP4 rows, the group permutation that pairs packed
    nibbles with activations, and dot products in exact arithmetic. */
module MoeMath {
  import opened NumberFormats

  /** The scalar operations the kernel treats as black boxes: the activation, the decoded half
      scale of a scale byte, and the two bfloat16 conversions. */
  datatype Arith = Arith(silu: real -> real, half: nat -> real, toBf16: real -> nat, fromBf16: nat -> real)

  /** A product, named so that equal factors give equal products without arithmetic. */
  function Mul(x: real, y: real): real { x * y }

  // ----- sums

  function Sum(c: seq<real>): real {
    if |c| == 0 then 0.0 else Sum(c[..|c| - 1]) + c[|c| - 1]
  }

  function Products(a: seq<real>, b: seq<real>): (c: seq<real>)
    requires |a| == |b|
    ensures |c| == |a|
  {
    seq(|a|, i requires 0 <= i < |a| => Mul(a[i], b[i]))
  }

  function Dot(a: seq<real>, b: seq<real>): real
    requires |a| == |b|
  {
    Sum(Products(a, b))
  }

  lemma {:induction false} SumAppend(c: seq<real>, d: seq<real>)
    ensures Sum(c + d) == Sum(c) + Sum(d)
  {
    if |d| == 0 {
      assert c + d == c;
    } else {
      SumAppend(c, d[..|d| - 1]);
      assert (c + d)[..|c + d| - 1] == c + d[..|d| - 1];
    }
  }

  lemma {:induction false} SumScaled(c: seq<real>, d: seq<real>, s: real)
    requires |c| == |d| && forall i :: 0 <= i < |c| ==> d[i] == Mul(c[i], s)
    ensures Sum(d) == Mul(Sum(c), s)
  {
    if |c| > 0 {
      SumScaled(c[..|c| - 1], d[..|d| - 1], s);
    }
  }

  lemma DotAppend(a: seq<real>, b: seq<real>, c: seq<real>, d: seq<real>)
    requires |a| == |b| && |c| == |d|
    ensures Dot(a + c, b + d) == Dot(a, b) + Dot(c, d)
  {
    assert Products(a + c, b + d) == Products(a, b) + Products(c, d);
    SumAppend(Products(a, b), Products(c, d));
  }

  lemma DotOne(a: seq<real>, b: seq<real>, n: nat)
    requires |a| == |b| && n < |a|
    ensures Dot(a[..n + 1], b[..n + 1]) == Dot(a[..n], b[..n]) + Mul(a[n], b[n])
  {
    var c := Products(a[..n + 1], b[..n + 1]);
    assert c[..n] == Products(a[..n], b[..n]);
  }

  // ----- the group permutation

  /** Position of element i of a 32-group in the permuted order: evens first, then odds. */
  function PermPos(i: nat): (p: nat)
    requires i < 32
    ensures p < 32 && NaturalPos(p) == i
  {
    if i % 2 == 1 then 16 + i / 2 else i / 2
  }

  function NaturalPos(p: nat): (i: nat)
    requires p < 32
    ensures i < 32
  {
    if p < 16 then 2 * p else 2 * (p - 16) + 1
  }

  function PermGroup<T>(c: seq<T>): (r: seq<T>)
    requires |c| == 32
    ensures |r| == 32
  {
    seq(32, p requires 0 <= p < 32 => c[NaturalPos(p)])
  }

  /** Every one of the 32-groups permuted in place. */
  function Permuted<T>(s: seq<T>, groups: nat): (r: seq<T>)
    requires |s| == groups * 32
    ensures |r| == |s|
  {
    if groups == 0 then [] else Permuted(s[..|s| - 32], groups - 1) + PermGroup(s[|s| - 32..])
  }

  lemma PermutedGroups<T>(s: seq<T>, g: nat)
    requires g * 32 + 32 <= |s|
    ensures Permuted(s[..(g + 1) * 32], g + 1) == Permuted(s[..g * 32], g) + PermGroup(s[g * 32..g * 32 + 32])
  {
    var t := s[..(g + 1) * 32];
    assert t[..|t| - 32] == s[..g * 32] && t[|t| - 32..] == s[g * 32..g * 32 + 32];
  }

  /** Element g * 32 + i lands at g * 32 + PermPos(i). */
  lemma {:induction false} PermutedCell<T>(s: seq<T>, groups: nat, g: nat, i: nat)
    requires |s| == groups * 32 && g < groups && i < 32
    ensures Permuted(s, groups)[g * 32 + PermPos(i)] == s[g * 32 + i]
    decreases groups
  {
    var t := s[..|s| - 32];
    if g < groups - 1 {
      PermutedCell(t, groups - 1, g, i);
    } else {
      assert PermGroup(s[|s| - 32..])[PermPos(i)] == s[g * 32 + i];
    }
  }

  function Evens(c: seq<real>): seq<real> {
    seq(|c| / 2, j requires 0 <= j < |c| / 2 => c[2 * j])
  }

  function Odds(c: seq<real>): seq<real> {
    seq(|c| / 2, j requires 0 <= j < |c| / 2 => c[2 * j + 1])
  }

  lemma {:induction false} SumEvensOdds(c: seq<real>)
    requires |c| % 2 == 0
    ensures Sum(Evens(c) + Odds(c)) == Sum(c)
  {
    SumAppend(Evens(c), Odds(c));
    if |c| > 0 {
      var n := |c| - 2;
      var d := c[..n];
      SumEvensOdds(d);
      SumAppend(Evens(d), Odds(d));
      assert Evens(c)[..n / 2] == Evens(d) && Odds(c)[..n / 2] == Odds(d);
      assert c[..n + 1][..n] == d;
    }
  }

  lemma SumGroup(c: seq<real>)
    requires |c| == 32
    ensures Sum(PermGroup(c)) == Sum(c)
  {
    SumEvensOdds(c);
    assert PermGroup(c) == Evens(c) + Odds(c);
  }

  lemma DotGroup(a: seq<real>, b: seq<real>)
    requires |a| == |b| == 32
    ensures Dot(PermGroup(a), PermGroup(b)) == Dot(a, b)
  {
    SumGroup(Products(a, b));
    assert PermGroup(Products(a, b)) == Products(PermGroup(a), PermGroup(b));
  }

  /** Permuting both factors does not change a dot product. */
  lemma {:induction false} DotPermuted(a: seq<real>, b: seq<real>, groups: nat)
    requires |a| == |b| == groups * 32
    ensures Dot(Permuted(a, groups), Permuted(b, groups)) == Dot(a, b)
    decreases groups
  {
    if groups > 0 {
      var n := |a| - 32;
      DotPermuted(a[..n], b[..n], groups - 1);
      DotGroup(a[n..], b[n..]);
      DotAppend(Permuted(a[..n], groups - 1), Permuted(b[..n], groups - 1), PermGroup(a[n..]), PermGroup(b[n..]));
      DotAppend(a[..n], b[..n], a[n..], b[n..]);
      assert a == a[..n] + a[n..] && b == b[..n] + b[n..];
    }
  }

  // ----- packed rows

  /** Element i of a packed row: the low nibble of byte i / 2 for even i, the high one for odd i. */
  function Nibble(w: seq<uint8>, i: nat): (n: nat)
    requires i / 2 < |w|
    ensures n < 16
  {
    if i % 2 == 0 then w[i / 2] % 16 else w[i / 2] / 16
  }

  /** A row of the given number of 32-groups: 16 bytes and one scale byte per group. */
  predicate PackedRow(w: seq<uint8>, sc: seq<uint8>, groups: nat) {
    |w| == groups * 16 && |sc| == groups
  }

  function Weight(ar: Arith, w: seq<uint8>, sc: seq<uint8>, i: nat): real
    requires i / 2 < |w| && i / 32 < |sc|
  {
    Mul(LUT[Nibble(w, i)] as real, ar.half(sc[i / 32]))
  }

  /** The dequantised row, in the checkpoint's element order. */
  function Row(ar: Arith, w: seq<uint8>, sc: seq<uint8>, groups: nat): (r: seq<real>)
    requires PackedRow(w, sc, groups)
    ensures |r| == groups * 32
  {
    seq(groups * 32, i requires 0 <= i < groups * 32 => Weight(ar, w, sc, i))
  }

  /** The kernel's register unpacking of 16 bytes: sixteen low nibbles, then sixteen high nibbles. */
  function Unpack32(b: seq<uint8>): (f: seq<real>)
    requires |b| == 16
    ensures |f| == 32
  {
    seq(32, p requires 0 <= p < 32 => (if p < 16 then LUT[b[p] % 16] else LUT[b[p - 16] / 16]) as real)
  }

  function Scaled(f: seq<real>, s: real): (r: seq<real>)
    ensures |r| == |f|
  {
    seq(|f|, p requires 0 <= p < |f| => Mul(f[p], s))
  }

  /** The scaled lanes of group g are the group's elements in the order of the permuted activations. */
  predicate UnpacksTo(ar: Arith, w: seq<uint8>, sc: seq<uint8>, row: seq<real>, g: nat)
    requires |w| == |sc| * 16 && |row| == |sc| * 32 && g < |sc|
  {
    PermGroup(row[g * 32..g * 32 + 32]) == Scaled(Unpack32(w[g * 16..g * 16 + 16]), ar.half(sc[g]))
  }

  lemma UnpackPairs(ar: Arith, w: seq<uint8>, sc: seq<uint8>, g: nat)
    requires PackedRow(w, sc, |sc|) && g < |sc|
    ensures UnpacksTo(ar, w, sc, Row(ar, w, sc, |sc|), g)
  {
    var b, row := w[g * 16..g * 16 + 16], Row(ar, w, sc, |sc|);
    forall p | 0 <= p < 32
      ensures row[g * 32 + NaturalPos(p)] == Mul(Unpack32(b)[p], ar.half(sc[g]))
    {
      var i := g * 32 + NaturalPos(p);
      assert i / 32 == g && i / 2 == g * 16 + (if p < 16 then p else p - 16) && (i % 2 == 0 <==> p < 16);
      assert row[i] == Weight(ar, w, sc, i);
    }
  }

  /** dequant_row: the scaled row in permuted order, written to out[off..off + n]. */
  method DequantRow(ar: Arith, w: seq<uint8>, sc: seq<uint8>, out: array<real>, off: nat, groups: nat)
    requires PackedRow(w, sc, groups) && off + groups * 32 <= out.Length
    modifies out
    ensures out[off..off + groups * 32] == Permuted(Row(ar, w, sc, groups), groups)
    ensures forall j :: 0 <= j < out.Length && !(off <= j < off + groups * 32) ==> out[j] == old(out[j])
  {
    forall g | 0 <= g < groups { UnpackPairs(ar, w, sc, g); }
    StoreGroups(ar, w, sc, Row(ar, w, sc, groups), out, off);
  }

  method StoreGroups(ar: Arith, w: seq<uint8>, sc: seq<uint8>, ghost row: seq<real>, out: array<real>, off: nat)
    requires |w| == |sc| * 16 && |row| == |sc| * 32 && off + |row| <= out.Length
    requires forall g :: 0 <= g < |sc| ==> UnpacksTo(ar, w, sc, row, g)
    modifies out
    ensures out[off..off + |row|] == Permuted(row, |sc|)
    ensures forall j :: 0 <= j < out.Length && !(off <= j < off + |row|) ==> out[j] == old(out[j])
  {
    for g := 0 to |sc|
      invariant out[off..off + g * 32] == Permuted(row[..g * 32], g)
      invariant forall j :: 0 <= j < out.Length && !(off <= j < off + |row|) ==> out[j] == old(out[j])
    {
      assert UnpacksTo(ar, w, sc, row, g);
      StoreGroup(row, g, out, off, w[g * 16..g * 16 + 16], ar.half(sc[g]));
    }
    assert row[..|sc| * 32] == row;
  }

  method StoreGroup(ghost row: seq<real>, g: nat, out: array<real>, off: nat, b: seq<uint8>, s: real)
    requires g * 32 + 32 <= |row| && off + |row| <= out.Length && |b| == 16
    requires PermGroup(row[g * 32..g * 32 + 32]) == Scaled(Unpack32(b), s)
    requires out[off..off + g * 32] == Permuted(row[..g * 32], g)
    modifies out
    ensures out[off..off + (g + 1) * 32] == Permuted(row[..(g + 1) * 32], g + 1)
    ensures forall j :: 0 <= j < out.Length && !(off <= j < off + |row|) ==> out[j] == old(out[j])
  {
    PermutedGroups(row, g);
    Store(out, off + g * 32, Scaled(Unpack32(b), s));
    assert out[off..off + g * 32] == old(out[off..off + g * 32]);
    assert out[off..off + (g + 1) * 32] == out[off..off + g * 32] + out[off + g * 32..off + g * 32 + 32];
  }

  /** Stores a register's worth of values at an offset. */
  method Store(out: array<real>, at: nat, f: seq<real>)
    requires at + |f| <= out.Length
    modifies out
    ensures out[at..at + |f|] == f
    ensures forall j :: 0 <= j < out.Length && !(at <= j < at + |f|) ==> out[j] == old(out[j])
  {
    forall p | 0 <= p < |f| {
      out[at + p] := f[p];
    }
  }

  /** dot_row: unpack, multiply by permuted activations and scale once per group. */
  method DotRow(ar: Arith, w: seq<uint8>, sc: seq<uint8>, xp: seq<real>, groups: nat) returns (acc: real)
    requires PackedRow(w, sc, groups) && |xp| == groups * 32
    ensures acc == Dot(Permuted(Row(ar, w, sc, groups), groups), xp)
  {
    forall g | 0 <= g < groups { UnpackPairs(ar, w, sc, g); }
    acc := DotGroupwise(ar, w, sc, Row(ar, w, sc, groups), xp);
  }

  method DotGroupwise(ar: Arith, w: seq<uint8>, sc: seq<uint8>, ghost row: seq<real>, xp: seq<real>) returns (acc: real)
    requires |w| == |sc| * 16 && |row| == |xp| == |sc| * 32
    requires forall g :: 0 <= g < |sc| ==> UnpacksTo(ar, w, sc, row, g)
    ensures acc == Dot(Permuted(row, |sc|), xp)
  {
    acc := 0.0;
    for g := 0 to |sc|
      invariant acc == Dot(Permuted(row[..g * 32], g), xp[..g * 32])
    {
      assert UnpacksTo(ar, w, sc, row, g);
      acc := AccumulateGroup(row, w[g * 16..g * 16 + 16], ar.half(sc[g]), xp, g, acc);
    }
    assert row[..|sc| * 32] == row && xp[..|sc| * 32] == xp;
  }

  /** One iteration of dot_row: 16 bytes against 32 activations. */
  method AccumulateGroup(ghost row: seq<real>, b: seq<uint8>, s: real, xp: seq<real>, g: nat, acc: real)
    returns (next: real)
    requires |row| == |xp| && g * 32 + 32 <= |row| && |b| == 16
    requires PermGroup(row[g * 32..g * 32 + 32]) == Scaled(Unpack32(b), s)
    requires acc == Dot(Permuted(row[..g * 32], g), xp[..g * 32])
    ensures next == Dot(Permuted(row[..(g + 1) * 32], g + 1), xp[..(g + 1) * 32])
  {
    var f := Unpack32(b);
    var part := DotLanes(f, xp[g * 32..g * 32 + 32]);
    DotGroups(row, xp, g, f, s);
    next := acc + Mul(part, s);
  }

  lemma DotGroups(row: seq<real>, xp: seq<real>, g: nat, f: seq<real>, s: real)
    requires |row| == |xp| && g * 32 + 32 <= |row| && |f| == 32
    requires PermGroup(row[g * 32..g * 32 + 32]) == Scaled(f, s)
    ensures Dot(Permuted(row[..(g + 1) * 32], g + 1), xp[..(g + 1) * 32]) ==
            Dot(Permuted(row[..g * 32], g), xp[..g * 32]) + Mul(Dot(f, xp[g * 32..g * 32 + 32]), s)
  {
    var x := xp[g * 32..g * 32 + 32];
    PermutedGroups(row, g);
    DotScaled(f, x, s);
    DotAppend(Permuted(row[..g * 32], g), xp[..g * 32], Scaled(f, s), x);
    assert xp[..(g + 1) * 32] == xp[..g * 32] + x;
  }

  lemma DotScaled(f: seq<real>, x: seq<real>, s: real)
    requires |f| == |x|
    ensures Dot(Scaled(f, s), x) == Mul(Dot(f, x), s)
  {
    var c, d := Products(f, x), Products(Scaled(f, s), x);
    forall i | 0 <= i < |c|
      ensures d[i] == Mul(c[i], s)
    {
      ScaleLane(f[i], s, x[i]);
    }
    SumScaled(c, d, s);
  }

  lemma ScaleLane(f: real, s: real, x: real)
    ensures Mul(Mul(f, s), x) == Mul(Mul(f, x), s)
  {
  }

  /** The multiply-accumulate of a few lanes. */
  method DotLanes(f: seq<real>, x: seq<real>) returns (part: real)
    requires |f| == |x|
    ensures part == Dot(f, x)
  {
    part := 0.0;
    for p := 0 to |f|
      invariant part == Dot(f[..p], x[..p])
    {
      DotOne(f, x, p);
      part := part + Mul(f[p], x[p]);
    }
    assert f[..|f|] == f && x[..|x|] == x;
  }

  /** dot_f32: both rows already dequantised; the loop takes sixteen lanes at a time. */
  method DotF32(a: seq<real>, b: seq<real>, ghost groups: nat) returns (acc: real)
    requires |a| == |b| == groups * 32
    ensures acc == Dot(a, b)
  {
    acc := 0.0;
    var i := 0;
    ghost var steps := 0;
    while i < |a|
      invariant i == steps * 16 && steps <= groups * 2
      invariant acc == Dot(a[..i], b[..i])
    {
      acc := AccumulateLanes(a, b, i, acc);
      i := i + 16;
      steps := steps + 1;
    }
    assert a[..|a|] == a && b[..|b|] == b;
  }

  method AccumulateLanes(a: seq<real>, b: seq<real>, i: nat, acc: real) returns (next: real)
    requires |a| == |b| && i + 16 <= |a| && acc == Dot(a[..i], b[..i])
    ensures next == Dot(a[..i + 16], b[..i + 16])
  {
    var part := DotLanes(a[i..i + 16], b[i..i + 16]);
    DotAppend(a[..i], b[..i], a[i..i + 16], b[i..i + 16]);
    assert a[..i + 16] == a[..i] + a[i..i + 16] && b[..i + 16] == b[..i] + b[i..i + 16];
    next := acc + part;
  }

  // ----- permute_row

  /** permute_row: overwrites a leftover scratch row. */
  method PermuteRow(src: seq<real>, leftover: seq<real>, groups: nat) returns (dst: seq<real>)
    requires |src| == groups * 32 == |leftover|
    ensures dst == Permuted(src, groups)
  {
    dst := leftover;
    ghost var goal := Permuted(src, groups);
    for g := 0 to groups
      invariant |dst| == |src| && forall q :: 0 <= q < g * 32 ==> dst[q] == goal[q]
    {
      dst := PermuteGroup(src[g * 32..g * 32 + 32], dst, g * 32);
      GroupCells(src, groups, g, goal);
    }
  }

  lemma GroupCells(src: seq<real>, groups: nat, g: nat, goal: seq<real>)
    requires |src| == groups * 32 && g < groups && goal == Permuted(src, groups)
    ensures forall q :: g * 32 <= q < (g + 1) * 32 ==> goal[q] == src[g * 32..g * 32 + 32][NaturalPos(q - g * 32)]
  {
    forall q | g * 32 <= q < (g + 1) * 32
      ensures goal[q] == src[g * 32..g * 32 + 32][NaturalPos(q - g * 32)]
    {
      var i := NaturalPos(q - g * 32);
      PermutedCell(src, groups, g, i);
      assert PermPos(i) == q - g * 32;
    }
  }

  lemma PermPosInverse(i: nat)
    requires i < 32
    ensures forall p :: 0 <= p < 32 ==> (NaturalPos(p) == i <==> p == PermPos(i))
  {
  }

  method PermuteGroup(c: seq<real>, row: seq<real>, at: nat) returns (dst: seq<real>)
    requires |c| == 32 && at + 32 <= |row|
    ensures |dst| == |row|
    ensures forall q :: at <= q < at + 32 ==> dst[q] == c[NaturalPos(q - at)]
    ensures forall q :: 0 <= q < |row| && !(at <= q < at + 32) ==> dst[q] == row[q]
  {
    dst := row;
    for i := 0 to 32
      invariant |dst| == |row|
      invariant forall q :: at <= q < at + 32 && NaturalPos(q - at) < i ==> dst[q] == c[NaturalPos(q - at)]
      invariant forall q :: 0 <= q < |row| && !(at <= q < at + 32) ==> dst[q] == row[q]
    {
      PermPosInverse(i);
      dst := dst[at + PermPos(i) := c[i]];
    }
  }
}
