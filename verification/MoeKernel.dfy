/** The CPU expert kernel: the layer as mathematics, the rows of gate/up and down tasks, and the blocks they form. */
module MoeKernel {
  import opened Basics
  import opened NumberFormats
  import opened MoeMath
  import opened Routing

  /** The packed weight rows and their scale rows, by expert and row. */
  datatype Bank = Bank(w1: (nat, nat) -> seq<uint8>, s1: (nat, nat) -> seq<uint8>,
                       w3: (nat, nat) -> seq<uint8>, s3: (nat, nat) -> seq<uint8>,
                       w2: (nat, nat) -> seq<uint8>, s2: (nat, nat) -> seq<uint8>)

  function Smaller(x: real, y: real): real { if x < y then x else y }

  function Larger(x: real, y: real): real { if x < y then y else x }

  /** swiglu with its clamp; a limit that is not positive switches the clamp off. */
  function Activate(ar: Arith, lim: real, g: real, u: real): real {
    if lim > 0.0 then Mul(ar.silu(Smaller(g, lim)), Smaller(Larger(u, -lim), lim)) else Mul(ar.silu(g), u)
  }

  /** The layer as mathematics: E experts over hg 32-groups of hidden and ig of intermediate units. */
  datatype Moe = Moe(ar: Arith, E: nat, hg: nat, ig: nat, lim: real, bank: Bank) {

    function H(): nat { hg * 32 }

    function I(): nat { ig * 32 }

    ghost predicate Ok() {
      && (forall e: nat, r: nat :: e < E && r < I() ==> PackedRow(bank.w1(e, r), bank.s1(e, r), hg))
      && (forall e: nat, r: nat :: e < E && r < I() ==> PackedRow(bank.w3(e, r), bank.s3(e, r), hg))
      && (forall e: nat, r: nat :: e < E && r < H() ==> PackedRow(bank.w2(e, r), bank.s2(e, r), ig))
    }

    ghost function Gate(e: nat, r: nat): (row: seq<real>)
      requires Ok() && e < E && r < I()
      ensures |row| == H()
    {
      Row(ar, bank.w1(e, r), bank.s1(e, r), hg)
    }

    ghost function Up(e: nat, r: nat): (row: seq<real>)
      requires Ok() && e < E && r < I()
      ensures |row| == H()
    {
      Row(ar, bank.w3(e, r), bank.s3(e, r), hg)
    }

    /** Hidden unit r of expert e on input x. */
    ghost function Unit(e: nat, x: seq<real>, r: nat): real
      requires Ok() && e < E && r < I() && |x| == H()
    {
      Activate(ar, lim, Dot(Gate(e, r), x), Dot(Up(e, r), x))
    }

    ghost function Hidden(e: nat, x: seq<real>): (h: seq<real>)
      requires Ok() && e < E && |x| == H()
      ensures |h| == I()
    {
      seq(I(), r requires 0 <= r < I() => Unit(e, x, r))
    }

    /** Output j of expert e on input x. */
    ghost function Down(e: nat, x: seq<real>, j: nat): real
      requires Ok() && e < E && j < H() && |x| == H()
    {
      Dot(Row(ar, bank.w2(e, j), bank.s2(e, j), ig), Hidden(e, x))
    }

    /** Output j of one token over its first k slots: a routed slot adds its weight times its expert's output. */
    ghost function Combined(ids: seq<int>, wts: seq<real>, x: seq<real>, j: nat, k: nat): real
      requires Ok() && |x| == H() && j < H() && k <= |ids| == |wts|
    {
      if k == 0 then 0.0
      else
        var rest := Combined(ids, wts, x, j, k - 1);
        if Routed(ids[k - 1], E) then rest + Mul(wts[k - 1], Down(ids[k - 1], x, j)) else rest
    }
  }

  /** A batch: inputs of M tokens, and K slots per token, stored token after token. */
  datatype Batch = Batch(xs: seq<seq<real>>, ids: seq<int>, wts: seq<real>, K: nat) {

    predicate Ok(H: nat) {
      |ids| == |wts| == |xs| * K && forall t :: 0 <= t < |xs| ==> |xs[t]| == H
    }

    /** The token a pair belongs to. */
    function Token(i: nat): (t: nat)
      requires |ids| == |xs| * K && i < |ids|
      ensures t < |xs| && t == i / K
    {
      PairBounds(i, |xs|, K);
      i / K
    }
  }

  lemma PairBounds(i: nat, M: nat, K: nat)
    requires i < M * K
    ensures K > 0 && 0 <= i / K < M
  {
    MulOrder(M, i / K, K);
  }

  lemma PairIndex(t: nat, k: nat, M: nat, K: nat)
    requires t < M && k < K
    ensures 0 <= t * K + k < M * K && (t * K + k) / K == t
    ensures t * K + K <= M * K
  {
    MulOrder(t, M, K);
    DivMod(t, K, k);
  }

  // ----- tasks

  /** A task is one block of 32 rows of one active expert. */
  ghost predicate TaskCell(batch: Batch, active: seq<nat>, nb: nat, task: nat, i: nat, c: nat)
    requires nb > 0 && task / nb < |active| && i < |batch.ids|
  {
    batch.ids[i] == active[task / nb] && c / 32 == task % nb
  }

  lemma TaskBounds(task: nat, n: nat, nb: nat)
    requires task < n * nb
    ensures nb > 0 && task / nb < n && task % nb < nb
  {
    PairBounds(task, n, nb);
  }

  /** Every cell of every routed pair belongs to exactly one task: the tasks write disjoint cells
      that together cover the scratch rows, whatever the number of rows per expert. */
  lemma OneTaskPerCell(batch: Batch, experts: nat, starts: seq<nat>, slots: seq<nat>, active: seq<nat>, nb: nat,
                       i: nat, c: nat) returns (task: nat)
    requires Grouped(batch.ids, experts, starts, slots)
    requires forall e: nat :: e in active <==> HasWork(starts, e)
    requires forall a, b :: 0 <= a < b < |active| ==> active[a] < active[b]
    requires i < |batch.ids| && Routed(batch.ids[i], experts) && c < nb * 32
    ensures task < |active| * nb && task / nb < |active| && TaskCell(batch, active, nb, task, i, c)
    ensures forall other: nat ::
              other < |active| * nb && other / nb < |active| && TaskCell(batch, active, nb, other, i, c) ==>
                other == task
  {
    var a := ActiveIndex(batch, experts, starts, slots, active, i);
    var b := c / 32;
    PairIndex(a, b, |active|, nb);
    DivMod(a, nb, b);
    task := a * nb + b;
    forall other: nat | other < |active| * nb && other / nb < |active| && TaskCell(batch, active, nb, other, i, c)
      ensures other == task
    {
      SameTask(active, nb, other, a, b);
    }
  }

  lemma ActiveIndex(batch: Batch, experts: nat, starts: seq<nat>, slots: seq<nat>, active: seq<nat>, i: nat)
    returns (a: nat)
    requires Grouped(batch.ids, experts, starts, slots)
    requires forall e: nat :: e in active <==> HasWork(starts, e)
    requires i < |batch.ids| && Routed(batch.ids[i], experts)
    ensures a < |active| && active[a] == batch.ids[i]
  {
    var e := batch.ids[i];
    PairsExact(batch.ids, |batch.ids|, e);
    assert GroupOf(batch.ids, starts, slots, e);
    assert i in Pairs(batch.ids, |batch.ids|, e);
    assert HasWork(starts, e);
    a :| 0 <= a < |active| && active[a] == e;
  }

  lemma SameTask(active: seq<nat>, nb: nat, task: nat, a: nat, b: nat)
    requires nb > 0 && task / nb < |active| && a < |active|
    requires forall a, b :: 0 <= a < b < |active| ==> active[a] < active[b]
    requires active[task / nb] == active[a] && task % nb == b
    ensures task == a * nb + b
  {
    var q := task / nb;
    assert q == a;
    assert task == q * nb + task % nb;
  }

  // ----- the gate/up tasks

  /** The permuted inputs, one scratch row per token; rows past the batch are leftovers. */
  ghost predicate InputsReady(moe: Moe, batch: Batch, xp: seq<seq<real>>) {
    && batch.Ok(moe.H()) && |batch.xs| <= |xp|
    && forall t :: 0 <= t < |batch.xs| ==> xp[t] == Permuted(batch.xs[t], moe.hg)
  }

  /** The activated hidden value from gate and up rows and an input row, all in permuted order. */
  function PairValue(ar: Arith, lim: real, dg: seq<real>, du: seq<real>, x: seq<real>): real
    requires |dg| == |du| == |x|
  {
    Activate(ar, lim, Dot(dg, x), Dot(du, x))
  }

  /** Both clamps, switched off unless the limit is positive: the gate from above, the up product from both sides. */
  method Clamp(lim: real, gate: real, up: real) returns (g: real, u: real)
    ensures lim <= 0.0 ==> g == gate && u == up
    ensures lim > 0.0 ==> g <= lim && (gate <= lim ==> g == gate) && (gate > lim ==> g == lim)
    ensures lim > 0.0 ==> -lim <= u <= lim && (-lim <= up <= lim ==> u == up)
    ensures lim > 0.0 ==> (up > lim ==> u == lim) && (up < -lim ==> u == -lim)
  {
    g, u := gate, up;
    if lim > 0.0 {
      if u < -lim { u := -lim; }
      if lim < u { u := lim; }
      if lim < g { g := lim; }
    }
  }

  method SharedPair(ar: Arith, lim: real, dg: seq<real>, du: seq<real>, x: seq<real>, hg: nat) returns (v: real)
    requires |dg| == |du| == |x| == hg * 32
    ensures v == PairValue(ar, lim, dg, du, x)
  {
    var g := DotF32(dg, x, hg);
    var u := DotF32(du, x, hg);
    g, u := Clamp(lim, g, u);
    v := Mul(ar.silu(g), u);
  }

  method LonePair(ar: Arith, lim: real, w1: seq<uint8>, s1: seq<uint8>, w3: seq<uint8>, s3: seq<uint8>, x: seq<real>,
                  hg: nat)
    returns (v: real)
    requires PackedRow(w1, s1, hg) && PackedRow(w3, s3, hg) && |x| == hg * 32
    ensures v == PairValue(ar, lim, Permuted(Row(ar, w1, s1, hg), hg), Permuted(Row(ar, w3, s3, hg), hg), x)
  {
    var g := DotRow(ar, w1, s1, x, hg);
    var u := DotRow(ar, w3, s3, x, hg);
    g, u := Clamp(lim, g, u);
    v := Mul(ar.silu(g), u);
  }

  /** Gate and up rows side by side in the thread's scratch. */
  method DequantBoth(ar: Arith, w1: seq<uint8>, s1: seq<uint8>, w3: seq<uint8>, s3: seq<uint8>, hg: nat,
                     tmp: array<real>)
    returns (dg: seq<real>, du: seq<real>)
    requires PackedRow(w1, s1, hg) && PackedRow(w3, s3, hg) && tmp.Length == 2 * (hg * 32)
    modifies tmp
    ensures dg == Permuted(Row(ar, w1, s1, hg), hg) && du == Permuted(Row(ar, w3, s3, hg), hg)
  {
    var H := hg * 32;
    DequantRow(ar, w1, s1, tmp, 0, hg);
    ghost var first := tmp[0..H];
    DequantRow(ar, w3, s3, tmp, H, hg);
    dg, du := tmp[0..H], tmp[H..H + H];
    assert dg == first;
  }

  /** The pair's input row is there. */
  predicate PairReady(xp: seq<seq<real>>, K: nat, i: nat, H: nat) {
    K > 0 && i / K < |xp| && |xp[i / K]| == H
  }

  function PairInput(xp: seq<seq<real>>, K: nat, i: nat, H: nat): (x: seq<real>)
    requires PairReady(xp, K, i, H)
    ensures |x| == H
  {
    xp[i / K]
  }

  /** What every scratch row should hold, by pair and place. */
  type Goal = (nat, nat) -> real

  /** Column pos of the scratch row of each pair in the group is set to its goal; nothing else changes. */
  ghost predicate ColumnSet(hp: seq<seq<real>>, hp': seq<seq<real>>, group: seq<nat>, pos: nat, goal: Goal) {
    && |hp'| == |hp|
    && (forall i: nat :: i < |hp| && pos < |hp[i]| ==>
          hp'[i] == if i in group then hp[i][pos := goal(i, pos)] else hp[i])
  }

  lemma ColumnNext(hp: seq<seq<real>>, hp': seq<seq<real>>, group: seq<nat>, q: nat, pos: nat, goal: Goal)
    requires q < |group| && group[q] < |hp| && pos < |hp[group[q]]|
    requires ColumnSet(hp, hp', group[..q], pos, goal)
    ensures ColumnSet(hp, hp'[group[q] := hp'[group[q]][pos := goal(group[q], pos)]], group[..q + 1], pos, goal)
  {
    assert group[..q + 1] == group[..q] + [group[q]];
  }

  /** The goal of pair i at pos is what gate and up rows dg and du give on its input. */
  ghost predicate PairGoal(ar: Arith, lim: real, dg: seq<real>, du: seq<real>, K: nat, xp: seq<seq<real>>,
                           hp: seq<seq<real>>, pos: nat, goal: Goal, i: nat)
    requires |dg| == |du|
  {
    && i < |hp| && pos < |hp[i]| && PairReady(xp, K, i, |dg|)
    && goal(i, pos) == PairValue(ar, lim, dg, du, PairInput(xp, K, i, |dg|))
  }

  /** A dequantised row pair against every pair of the group. */
  method SharedRow(ar: Arith, lim: real, dg: seq<real>, du: seq<real>, hg: nat, K: nat, group: seq<nat>,
                   xp: seq<seq<real>>, hp: array<seq<real>>, pos: nat, ghost goal: Goal)
    requires |dg| == |du| == hg * 32
    requires forall q :: 0 <= q < |group| ==> PairGoal(ar, lim, dg, du, K, xp, hp[..], pos, goal, group[q])
    modifies hp
    ensures ColumnSet(old(hp[..]), hp[..], group, pos, goal)
  {
    ghost var before := hp[..];
    for q := 0 to |group|
      invariant ColumnSet(before, hp[..], group[..q], pos, goal)
    {
      var i := group[q];
      assert PairGoal(ar, lim, dg, du, K, xp, before, pos, goal, i);
      var v := SharedPair(ar, lim, dg, du, PairInput(xp, K, i, hg * 32), hg);
      ColumnNext(before, hp[..], group, q, pos, goal);
      hp[i] := hp[i][pos := v];
    }
    assert group[..|group|] == group;
  }

  /** A lone pair: fused dot products straight from the packed rows. */
  method LoneRow(ar: Arith, lim: real, hg: nat, K: nat, w1: seq<uint8>, s1: seq<uint8>, w3: seq<uint8>, s3: seq<uint8>,
                 i: nat, xp: seq<seq<real>>, hp: array<seq<real>>, pos: nat, ghost dg: seq<real>, ghost du: seq<real>,
                 ghost goal: Goal)
    requires PackedRow(w1, s1, hg) && PackedRow(w3, s3, hg)
    requires dg == Permuted(Row(ar, w1, s1, hg), hg) && du == Permuted(Row(ar, w3, s3, hg), hg)
    requires PairGoal(ar, lim, dg, du, K, xp, hp[..], pos, goal, i)
    modifies hp
    ensures ColumnSet(old(hp[..]), hp[..], [i], pos, goal)
  {
    var v := LonePair(ar, lim, w1, s1, w3, s3, PairInput(xp, K, i, hg * 32), hg);
    hp[i] := hp[i][pos := v];
  }

  /** Row r of an expert: the fused path for a lone pair, a dequantised row shared by several. */
  method GateUpRow(ar: Arith, lim: real, hg: nat, K: nat, w1: seq<uint8>, s1: seq<uint8>, w3: seq<uint8>,
                   s3: seq<uint8>, group: seq<nat>, xp: seq<seq<real>>, hp: array<seq<real>>, pos: nat,
                   tmp: array<real>, ghost dg: seq<real>, ghost du: seq<real>, ghost goal: Goal)
    requires PackedRow(w1, s1, hg) && PackedRow(w3, s3, hg) && tmp.Length == 2 * (hg * 32)
    requires dg == Permuted(Row(ar, w1, s1, hg), hg) && du == Permuted(Row(ar, w3, s3, hg), hg)
    requires forall q :: 0 <= q < |group| ==> PairGoal(ar, lim, dg, du, K, xp, hp[..], pos, goal, group[q])
    modifies hp, tmp
    ensures ColumnSet(old(hp[..]), hp[..], group, pos, goal)
  {
    if |group| == 1 {
      LoneRow(ar, lim, hg, K, w1, s1, w3, s3, group[0], xp, hp, pos, dg, du, goal);
      assert [group[0]] == group;
    } else {
      var gate, up := DequantBoth(ar, w1, s1, w3, s3, hg, tmp);
      SharedRow(ar, lim, gate, up, hg, K, group, xp, hp, pos, goal);
    }
  }

  /** The goal of pair i at pos is the dot product of a down row with the pair's hidden row. */
  ghost predicate DownGoal(dr: seq<real>, hp: seq<seq<real>>, yp: seq<seq<real>>, pos: nat, goal: Goal, i: nat) {
    && i < |yp| && pos < |yp[i]| && i < |hp| && |hp[i]| == |dr| && goal(i, pos) == Dot(dr, hp[i])
  }

  method SharedDown(dr: seq<real>, ghost ig: nat, group: seq<nat>, hp: seq<seq<real>>, yp: array<seq<real>>, pos: nat,
                    ghost goal: Goal)
    requires |dr| == ig * 32
    requires forall q :: 0 <= q < |group| ==> DownGoal(dr, hp, yp[..], pos, goal, group[q])
    modifies yp
    ensures ColumnSet(old(yp[..]), yp[..], group, pos, goal)
  {
    ghost var before := yp[..];
    for q := 0 to |group|
      invariant ColumnSet(before, yp[..], group[..q], pos, goal)
    {
      var i := group[q];
      assert DownGoal(dr, hp, before, pos, goal, i);
      var v := DotF32(dr, hp[i], ig);
      ColumnNext(before, yp[..], group, q, pos, goal);
      yp[i] := yp[i][pos := v];
    }
    assert group[..|group|] == group;
  }

  /** Row r of an expert's down projection. The dequantised row must fit the thread's scratch. */
  method DownRow(ar: Arith, ig: nat, w: seq<uint8>, sc: seq<uint8>, group: seq<nat>, hp: seq<seq<real>>,
                 yp: array<seq<real>>, pos: nat, tmp: array<real>, ghost dr: seq<real>, ghost goal: Goal)
    requires PackedRow(w, sc, ig) && ig * 32 <= tmp.Length
    requires dr == Permuted(Row(ar, w, sc, ig), ig)
    requires forall q :: 0 <= q < |group| ==> DownGoal(dr, hp, yp[..], pos, goal, group[q])
    modifies yp, tmp
    ensures ColumnSet(old(yp[..]), yp[..], group, pos, goal)
  {
    if |group| == 1 {
      var i := group[0];
      assert DownGoal(dr, hp, yp[..], pos, goal, i);
      var v := DotRow(ar, w, sc, hp[i], ig);
      yp[i] := yp[i][pos := v];
      assert [i] == group;
    } else {
      DequantRow(ar, w, sc, tmp, 0, ig);
      SharedDown(tmp[0..ig * 32], ig, group, hp, yp, pos, goal);
    }
  }

  // ----- blocks of rows

  /** Where row k of a block is written: hidden rows go to the permuted place, output rows stay. */
  function Place(perm: bool, k: nat): (p: nat)
    requires k < 32
    ensures p < 32 && Rank(perm, p) == k
  {
    if perm then PermPos(k) else k
  }

  function Rank(perm: bool, p: nat): (k: nat)
    requires p < 32
    ensures k < 32
  {
    if perm then NaturalPos(p) else p
  }

  lemma PlaceInverse(perm: bool, k: nat)
    requires k < 32
    ensures forall p :: 0 <= p < 32 ==> (Rank(perm, p) == k <==> p == Place(perm, k))
  {
    PermPosInverse(k);
  }

  /** Block rb of every pair of expert e holds its goal. */
  ghost predicate BlockDone(hp: seq<seq<real>>, ids: seq<int>, e: nat, rb: nat, goal: Goal) {
    forall i: nat, c: nat :: i < |ids| && i < |hp| && ids[i] == e && rb * 32 <= c < rb * 32 + 32 && c < |hp[i]| ==>
      hp[i][c] == goal(i, c)
  }

  /** The first k rows of block rb of every pair of expert e hold their goal. */
  ghost predicate RowsDone(hp: seq<seq<real>>, ids: seq<int>, e: nat, rb: nat, k: nat, perm: bool, goal: Goal) {
    forall i: nat, c: nat :: i < |ids| && i < |hp| && ids[i] == e && rb * 32 <= c < rb * 32 + 32 && c < |hp[i]|
                             && Rank(perm, c - rb * 32) < k ==>
      hp[i][c] == goal(i, c)
  }

  lemma NoRowsDone(hp: seq<seq<real>>, ids: seq<int>, e: nat, rb: nat, perm: bool, goal: Goal)
    ensures RowsDone(hp, ids, e, rb, 0, perm, goal)
    ensures RowsDone(hp, ids, e, rb, 32, perm, goal) ==> BlockDone(hp, ids, e, rb, goal)
  {
  }

  /** A row step keeps every cell that holds its goal, whichever block it belongs to. */
  lemma CellKept(hp: seq<seq<real>>, hp': seq<seq<real>>, group: seq<nat>, pos: nat, goal: Goal, i: nat, c: nat)
    requires ColumnSet(hp, hp', group, pos, goal) && i < |hp| && pos < |hp[i]| && c < |hp[i]|
    ensures |hp'[i]| == |hp[i]| && (hp[i][c] == goal(i, c) ==> hp'[i][c] == goal(i, c))
    ensures c == pos && i in group ==> hp'[i][c] == goal(i, c)
  {
  }

  /** Row k of a running block takes that block a row further and keeps what any other block has done, so the rows of
      running blocks may interleave. */
  lemma RowKeepsDone(hp: seq<seq<real>>, hp': seq<seq<real>>, ids: seq<int>, e: nat, rb: nat, k: nat, perm: bool,
                     goal: Goal, n: nat)
    requires k < 32 && rb * 32 + 32 <= n && |hp| == |hp'| && forall i :: 0 <= i < |hp| ==> |hp[i]| == n
    requires ColumnSet(hp, hp', Pairs(ids, |ids|, e), rb * 32 + Place(perm, k), goal)
    ensures RowsDone(hp, ids, e, rb, k, perm, goal) ==> RowsDone(hp', ids, e, rb, k + 1, perm, goal)
    ensures forall d: nat, rc: nat, m: nat :: RowsDone(hp, ids, d, rc, m, perm, goal) ==>
              RowsDone(hp', ids, d, rc, m, perm, goal)
  {
    PairsExact(ids, |ids|, e);
    PlaceInverse(perm, k);
    var group, pos := Pairs(ids, |ids|, e), rb * 32 + Place(perm, k);
    forall i: nat, c: nat | i < |hp| && c < n
      ensures |hp'[i]| == n && (hp[i][c] == goal(i, c) ==> hp'[i][c] == goal(i, c))
      ensures c == pos && i in group ==> hp'[i][c] == goal(i, c)
    {
      CellKept(hp, hp', group, pos, goal, i, c);
    }
  }
}
