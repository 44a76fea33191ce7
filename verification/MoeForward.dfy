/** The two kinds of tasks over a layer: what their rows are meant to hold, single rows, and whole blocks of rows. */
module MoeForward {
  import opened MoeMath
  import opened Routing
  import opened MoeKernel
  import opened MoeLayer

  /** Up to this many tokens the blocks go to the statically scheduled loops. */
  const DECODE_TOKENS := 16

  /** A worksharing loop gives every block of [lo, hi) its 32 rows and nothing else. The blocks run on several threads,
      so their rows may interleave in any way; each occurrence of a block is its next row. */
  ghost predicate Schedule(order: seq<nat>, lo: nat, hi: nat) {
    forall x: nat :: multiset(order)[x] == if lo <= x < hi then 32 else 0
  }

  /** The first worksharing loop starts where the second ends. */
  function Split(M: nat, tasks: nat): nat { if M <= DECODE_TOKENS then tasks else 0 }

  /** Whatever the batch size, one of the two loops is empty and the other runs every block. */
  lemma OneLoopWorks(M: nat, tasks: nat, dynamicOrder: seq<nat>, staticOrder: seq<nat>)
    requires Schedule(dynamicOrder, Split(M, tasks), tasks) && Schedule(staticOrder, 0, Split(M, tasks))
    ensures M <= 16 ==> dynamicOrder == []
    ensures M > 16 ==> staticOrder == []
    ensures forall x: nat :: x < tasks ==> multiset(dynamicOrder)[x] == 32 || multiset(staticOrder)[x] == 32
    ensures forall x: nat :: x in dynamicOrder || x in staticOrder ==> x < tasks
  {
    assert dynamicOrder != [] ==> dynamicOrder[0] in multiset(dynamicOrder);
    assert staticOrder != [] ==> staticOrder[0] in multiset(staticOrder);
    forall x: nat
      ensures x in dynamicOrder || x in staticOrder ==> x < tasks
    {
      assert x in dynamicOrder ==> x in multiset(dynamicOrder);
      assert x in staticOrder ==> x in multiset(staticOrder);
    }
  }

  // ----- what the scratch rows are meant to hold

  /** The goal puts hidden unit rb * 32 + k of pair i at the permuted place of its group. */
  ghost predicate HiddenCell(moe: Moe, batch: Batch, goal: Goal, i: nat, rb: nat, k: nat)
    requires moe.Ok() && batch.Ok(moe.H()) && i < |batch.ids| && Routed(batch.ids[i], moe.E) && rb < moe.ig && k < 32
  {
    goal(i, rb * 32 + PermPos(k)) == moe.Unit(batch.ids[i], batch.xs[batch.Token(i)], rb * 32 + k)
  }

  ghost predicate HiddenGoal(moe: Moe, batch: Batch, goal: Goal) {
    && moe.Ok() && batch.Ok(moe.H())
    && forall i: nat, rb: nat, k: nat :: i < |batch.ids| && Routed(batch.ids[i], moe.E) && rb < moe.ig && k < 32 ==>
         HiddenCell(moe, batch, goal, i, rb, k)
  }

  /** The goal puts output r of pair i's expert at place r. */
  ghost predicate OutputCell(moe: Moe, batch: Batch, goal: Goal, i: nat, r: nat)
    requires moe.Ok() && batch.Ok(moe.H()) && i < |batch.ids| && Routed(batch.ids[i], moe.E) && r < moe.H()
  {
    goal(i, r) == moe.Down(batch.ids[i], batch.xs[batch.Token(i)], r)
  }

  ghost predicate OutputGoal(moe: Moe, batch: Batch, goal: Goal) {
    && moe.Ok() && batch.Ok(moe.H())
    && forall i: nat, r: nat :: i < |batch.ids| && Routed(batch.ids[i], moe.E) && r < moe.H() ==>
         OutputCell(moe, batch, goal, i, r)
  }

  ghost function UnitAt(moe: Moe, batch: Batch, i: nat, c: nat): real
    requires moe.Ok() && batch.Ok(moe.H())
  {
    var r := c / 32 * 32 + NaturalPos(c % 32);
    if i < |batch.ids| && Routed(batch.ids[i], moe.E) && r < moe.I() then
      moe.Unit(batch.ids[i], batch.xs[batch.Token(i)], r)
    else 0.0
  }

  lemma UnitAtPlace(moe: Moe, batch: Batch, i: nat, rb: nat, k: nat)
    requires moe.Ok() && batch.Ok(moe.H()) && i < |batch.ids| && Routed(batch.ids[i], moe.E) && rb < moe.ig && k < 32
    ensures UnitAt(moe, batch, i, rb * 32 + PermPos(k)) == moe.Unit(batch.ids[i], batch.xs[batch.Token(i)], rb * 32 + k)
  {
    hide moe.Unit;
    var c := rb * 32 + PermPos(k);
    assert c / 32 == rb && c % 32 == PermPos(k);
  }

  /** There is such a goal for the hidden rows. */
  lemma HiddenGoalExists(moe: Moe, batch: Batch) returns (goal: Goal)
    requires moe.Ok() && batch.Ok(moe.H())
    ensures HiddenGoal(moe, batch, goal)
  {
    hide moe.Unit, UnitAt;
    goal := (i: nat, c: nat) => UnitAt(moe, batch, i, c);
    forall i: nat, rb: nat, k: nat | i < |batch.ids| && Routed(batch.ids[i], moe.E) && rb < moe.ig && k < 32
      ensures HiddenCell(moe, batch, goal, i, rb, k)
    {
      UnitAtPlace(moe, batch, i, rb, k);
    }
  }

  lemma OutputGoalExists(moe: Moe, batch: Batch) returns (goal: Goal)
    requires moe.Ok() && batch.Ok(moe.H())
    ensures OutputGoal(moe, batch, goal)
  {
    hide moe.Down;
    goal := (i: nat, c: nat) =>
      if i < |batch.ids| && Routed(batch.ids[i], moe.E) && c < moe.H() then
        moe.Down(batch.ids[i], batch.xs[batch.Token(i)], c)
      else 0.0;
  }

  // ----- rows of a gate/up task

  lemma UnitOfRows(moe: Moe, e: nat, x: seq<real>, r: nat)
    requires moe.Ok() && e < moe.E && r < moe.I() && |x| == moe.H()
    ensures var gate, up := Permuted(moe.Gate(e, r), moe.hg), Permuted(moe.Up(e, r), moe.hg);
            PairValue(moe.ar, moe.lim, gate, up, Permuted(x, moe.hg)) == moe.Unit(e, x, r)
  {
    hide Activate, Dot, Permuted, Row;
    DotPermuted(moe.Gate(e, r), x, moe.hg);
    DotPermuted(moe.Up(e, r), x, moe.hg);
  }

  lemma InputOfPair(moe: Moe, batch: Batch, xp: seq<seq<real>>, i: nat)
    requires InputsReady(moe, batch, xp) && i < |batch.ids|
    ensures PairReady(xp, batch.K, i, moe.H())
    ensures PairInput(xp, batch.K, i, moe.H()) == Permuted(batch.xs[batch.Token(i)], moe.hg)
  {
    PairBounds(i, |batch.xs|, batch.K);
  }

  lemma PairGoalHolds(moe: Moe, batch: Batch, e: nat, rb: nat, k: nat, xp: seq<seq<real>>, hp: seq<seq<real>>,
                      goal: Goal, dg: seq<real>, du: seq<real>, i: nat)
    requires InputsReady(moe, batch, xp) && HiddenGoal(moe, batch, goal)
    requires e < moe.E && rb < moe.ig && k < 32 && i < |batch.ids| && batch.ids[i] == e && i < |hp|
    requires |hp[i]| == moe.I()
    requires dg == Permuted(moe.Gate(e, rb * 32 + k), moe.hg) && du == Permuted(moe.Up(e, rb * 32 + k), moe.hg)
    ensures PairGoal(moe.ar, moe.lim, dg, du, batch.K, xp, hp, rb * 32 + PermPos(k), goal, i)
  {
    hide PairValue, Activate, Mul, Dot, Permuted, moe.Unit, moe.Gate, moe.Up;
    InputOfPair(moe, batch, xp, i);
    UnitOfRows(moe, e, batch.xs[batch.Token(i)], rb * 32 + k);
    assert HiddenCell(moe, batch, goal, i, rb, k);
  }

  /** Every pair of the group is ready for row rb * 32 + k. */
  lemma GroupGoals(moe: Moe, batch: Batch, e: nat, rb: nat, k: nat, xp: seq<seq<real>>, hp: seq<seq<real>>, goal: Goal,
                   dg: seq<real>, du: seq<real>)
    requires InputsReady(moe, batch, xp) && HiddenGoal(moe, batch, goal)
    requires e < moe.E && rb < moe.ig && k < 32 && |batch.ids| <= |hp| && Rows(hp, moe.I())
    requires dg == Permuted(moe.Gate(e, rb * 32 + k), moe.hg) && du == Permuted(moe.Up(e, rb * 32 + k), moe.hg)
    ensures var group := Pairs(batch.ids, |batch.ids|, e);
            forall q :: 0 <= q < |group| ==>
              PairGoal(moe.ar, moe.lim, dg, du, batch.K, xp, hp, rb * 32 + PermPos(k), goal, group[q])
  {
    hide PairGoal, HiddenGoal, InputsReady, Permuted;
    var group := Pairs(batch.ids, |batch.ids|, e);
    PairsExact(batch.ids, |batch.ids|, e);
    forall q | 0 <= q < |group|
      ensures PairGoal(moe.ar, moe.lim, dg, du, batch.K, xp, hp, rb * 32 + PermPos(k), goal, group[q])
    {
      assert group[q] in group;
      PairGoalHolds(moe, batch, e, rb, k, xp, hp, goal, dg, du, group[q]);
    }
  }

  /** Row k of block rb of a gate/up task: its column of every pair of the expert, and nothing else. */
  method GateUpOne(L: Layer, ghost moe: Moe, ghost batch: Batch, e: nat, rb: nat, k: nat, group: seq<nat>, K: nat,
                   xp: seq<seq<real>>, hp: array<seq<real>>, tmp: array<real>, ghost goal: Goal)
    requires L.Holds(moe) && InputsReady(moe, batch, xp) && batch.K == K && HiddenGoal(moe, batch, goal)
    requires e < L.E && rb < L.ig && k < 32 && group == Pairs(batch.ids, |batch.ids|, e)
    requires |batch.ids| <= hp.Length && Rows(hp[..], L.ig * 32) && tmp.Length == 2 * (L.hg * 32)
    modifies hp, tmp
    ensures ColumnSet(old(hp[..]), hp[..], group, rb * 32 + Place(true, k), goal)
  {
    hide PairGoal, HiddenGoal, InputsReady, Permuted, ColumnSet;
    var r := rb * 32 + k;
    var pos := r / 32 * 32 + PermPos(r % 32);
    assert pos == rb * 32 + PermPos(k);
    ghost var before, dg, du := hp[..], Permuted(moe.Gate(e, r), L.hg), Permuted(moe.Up(e, r), L.hg);
    GroupGoals(moe, batch, e, rb, k, xp, before, goal, dg, du);
    assert L.ExpertHolds(moe.bank, e) && L.GateUpHolds(moe.bank, e, r);
    GateUpRow(L.ar, L.lim, L.hg, K, L.w13[e, r][..L.hg * 16], L.s13[e, r][..L.hg],
              L.w13[e, r][L.hg * 16..], L.s13[e, r][L.hg..], group, xp, hp, pos, tmp, dg, du, goal);
  }

  /** A column step keeps the shape of the rows. */
  lemma ColumnKeepsRows(hp: seq<seq<real>>, hp': seq<seq<real>>, group: seq<nat>, pos: nat, goal: Goal, n: nat)
    requires Rows(hp, n) && pos < n && ColumnSet(hp, hp', group, pos, goal)
    ensures Rows(hp', n)
  {
  }

  // ----- rows of a down task

  /** Every routed pair's hidden row is complete. */
  ghost predicate HiddenReady(moe: Moe, batch: Batch, hp: seq<seq<real>>) {
    && moe.Ok() && batch.Ok(moe.H()) && |batch.ids| <= |hp|
    && forall i :: 0 <= i < |batch.ids| && Routed(batch.ids[i], moe.E) ==> HiddenRow(moe, batch, hp, i)
  }

  ghost predicate HiddenRow(moe: Moe, batch: Batch, hp: seq<seq<real>>, i: nat)
    requires moe.Ok() && batch.Ok(moe.H()) && i < |batch.ids| <= |hp| && Routed(batch.ids[i], moe.E)
  {
    hp[i] == Permuted(moe.Hidden(batch.ids[i], batch.xs[batch.Token(i)]), moe.ig)
  }

  ghost function DownWeights(moe: Moe, e: nat, r: nat): (row: seq<real>)
    requires moe.Ok() && e < moe.E && r < moe.H()
    ensures |row| == moe.I()
  {
    Row(moe.ar, moe.bank.w2(e, r), moe.bank.s2(e, r), moe.ig)
  }

  lemma DownOfRows(moe: Moe, e: nat, x: seq<real>, r: nat)
    requires moe.Ok() && e < moe.E && r < moe.H() && |x| == moe.H()
    ensures Dot(Permuted(DownWeights(moe, e, r), moe.ig), Permuted(moe.Hidden(e, x), moe.ig)) == moe.Down(e, x, r)
  {
    hide Dot, Permuted, Row, moe.Unit;
    DotPermuted(DownWeights(moe, e, r), moe.Hidden(e, x), moe.ig);
  }

  lemma DownGoalHolds(moe: Moe, batch: Batch, e: nat, r: nat, hp: seq<seq<real>>, yp: seq<seq<real>>, goal: Goal,
                      dr: seq<real>, i: nat)
    requires HiddenReady(moe, batch, hp) && OutputGoal(moe, batch, goal)
    requires e < moe.E && r < moe.H() && i < |batch.ids| && batch.ids[i] == e && i < |yp| && |yp[i]| == moe.H()
    requires dr == Permuted(DownWeights(moe, e, r), moe.ig)
    ensures DownGoal(dr, hp, yp, r, goal, i)
  {
    hide Dot, Permuted, DownWeights, moe.Hidden, moe.Down;
    DownOfRows(moe, e, batch.xs[batch.Token(i)], r);
    assert HiddenRow(moe, batch, hp, i) && OutputCell(moe, batch, goal, i, r);
  }

  lemma GroupDownGoals(moe: Moe, batch: Batch, e: nat, r: nat, hp: seq<seq<real>>, yp: seq<seq<real>>, goal: Goal,
                       dr: seq<real>)
    requires HiddenReady(moe, batch, hp) && OutputGoal(moe, batch, goal)
    requires e < moe.E && r < moe.H() && |batch.ids| <= |yp| && Rows(yp, moe.H())
    requires dr == Permuted(DownWeights(moe, e, r), moe.ig)
    ensures var group := Pairs(batch.ids, |batch.ids|, e);
            forall q :: 0 <= q < |group| ==> DownGoal(dr, hp, yp, r, goal, group[q])
  {
    hide DownGoal, OutputGoal, HiddenReady, Permuted, DownWeights;
    var group := Pairs(batch.ids, |batch.ids|, e);
    PairsExact(batch.ids, |batch.ids|, e);
    forall q | 0 <= q < |group|
      ensures DownGoal(dr, hp, yp, r, goal, group[q])
    {
      assert group[q] in group;
      DownGoalHolds(moe, batch, e, r, hp, yp, goal, dr, group[q]);
    }
  }

  /** Row k of block rb of a down task. */
  method DownOne(L: Layer, ghost moe: Moe, ghost batch: Batch, e: nat, rb: nat, k: nat, group: seq<nat>,
                 hp: seq<seq<real>>, yp: array<seq<real>>, tmp: array<real>, ghost goal: Goal)
    requires L.Holds(moe) && HiddenReady(moe, batch, hp) && OutputGoal(moe, batch, goal)
    requires e < L.E && rb < L.hg && k < 32 && group == Pairs(batch.ids, |batch.ids|, e)
    requires |batch.ids| <= yp.Length && Rows(yp[..], L.hg * 32) && L.ig * 32 <= tmp.Length
    modifies yp, tmp
    ensures ColumnSet(old(yp[..]), yp[..], group, rb * 32 + Place(false, k), goal)
  {
    hide DownGoal, OutputGoal, HiddenReady, Permuted, ColumnSet;
    var r := rb * 32 + k;
    ghost var before, dr := yp[..], Permuted(DownWeights(moe, e, r), L.ig);
    GroupDownGoals(moe, batch, e, r, hp, before, goal, dr);
    assert L.ExpertHolds(moe.bank, e);
    DownRow(L.ar, L.ig, L.w2[e, r], L.s2[e, r], group, hp, yp, r, tmp, dr, goal);
  }
}
