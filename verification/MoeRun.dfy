/** A whole forward call: group, permute, the four worksharing loops, and the weighted combine. */
module MoeRun {
  import opened Basics
  import opened MoeMath
  import opened Routing
  import opened MoeKernel
  import opened MoeLayer
  import opened MoeForward

  // ----- running blocks, their rows interleaved

  /** A block holds its goal for every pair of its expert. */
  ghost predicate TaskDone(rows: seq<seq<real>>, ids: seq<int>, active: seq<nat>, nb: nat, task: nat, goal: Goal) {
    nb > 0 && task / nb < |active| && BlockDone(rows, ids, active[task / nb], task % nb, goal)
  }

  /** So many rows of a block are done. */
  ghost predicate TaskAt(rows: seq<seq<real>>, ids: seq<int>, active: seq<nat>, nb: nat, task: nat, k: nat, perm: bool,
                         goal: Goal) {
    nb > 0 && task / nb < |active| && RowsDone(rows, ids, active[task / nb], task % nb, k, perm, goal)
  }

  /** How far every block of a loop is, and the blocks that were done before it. */
  ghost predicate Under(rows: seq<seq<real>>, was: seq<seq<real>>, ids: seq<int>, active: seq<nat>, nb: nat,
                        at: seq<nat>, perm: bool, goal: Goal) {
    && (forall task: nat :: task < |at| ==> TaskAt(rows, ids, active, nb, task, at[task], perm, goal))
    && forall task: nat :: TaskAt(was, ids, active, nb, task, 32, perm, goal) ==>
         TaskAt(rows, ids, active, nb, task, 32, perm, goal)
  }

  lemma UnderStart(rows: seq<seq<real>>, ids: seq<int>, active: seq<nat>, nb: nat, at: seq<nat>, perm: bool, goal: Goal)
    requires |at| == |active| * nb && forall task :: 0 <= task < |at| ==> at[task] == 0
    ensures Under(rows, rows, ids, active, nb, at, perm, goal)
  {
    forall task: nat | task < |at|
      ensures TaskAt(rows, ids, active, nb, task, at[task], perm, goal)
    {
      TaskBounds(task, |active|, nb);
      NoRowsDone(rows, ids, active[task / nb], task % nb, perm, goal);
    }
  }

  /** Row k of a block has been written for all its pairs. */
  ghost predicate TaskStep(rows: seq<seq<real>>, rows': seq<seq<real>>, ids: seq<int>, active: seq<nat>, nb: nat,
                           task: nat, k: nat, perm: bool, goal: Goal) {
    && nb > 0 && task / nb < |active| && k < 32 && Rows(rows, nb * 32) && |rows'| == |rows|
    && ColumnSet(rows, rows', Pairs(ids, |ids|, active[task / nb]), task % nb * 32 + Place(perm, k), goal)
  }

  /** One more row of one block, and what another block has done. */
  lemma TaskRow(rows: seq<seq<real>>, rows': seq<seq<real>>, ids: seq<int>, active: seq<nat>, nb: nat,
                task: nat, k: nat, perm: bool, goal: Goal, other: nat, m: nat)
    requires TaskStep(rows, rows', ids, active, nb, task, k, perm, goal)
    requires TaskAt(rows, ids, active, nb, other, m, perm, goal)
    ensures TaskAt(rows', ids, active, nb, other, m, perm, goal)
    ensures other == task && m == k ==> TaskAt(rows', ids, active, nb, task, k + 1, perm, goal)
  {
    hide ColumnSet, RowsDone, Pairs;
    RowKeepsDone(rows, rows', ids, active[task / nb], task % nb, k, perm, goal, nb * 32);
  }

  /** One more row of one block of a loop. */
  lemma UnderRow(rows: seq<seq<real>>, rows': seq<seq<real>>, was: seq<seq<real>>, ids: seq<int>, active: seq<nat>,
                 nb: nat, at: seq<nat>, task: nat, perm: bool, goal: Goal)
    requires Under(rows, was, ids, active, nb, at, perm, goal) && task < |at|
    requires TaskStep(rows, rows', ids, active, nb, task, at[task], perm, goal)
    ensures Under(rows', was, ids, active, nb, at[task := at[task] + 1], perm, goal)
  {
    var at' := at[task := at[task] + 1];
    hide TaskStep, TaskAt;
    forall other: nat | other < |at'|
      ensures TaskAt(rows', ids, active, nb, other, at'[other], perm, goal)
    {
      TaskRow(rows, rows', ids, active, nb, task, at[task], perm, goal, other, at[other]);
    }
    forall other: nat | TaskAt(was, ids, active, nb, other, 32, perm, goal)
      ensures TaskAt(rows', ids, active, nb, other, 32, perm, goal)
    {
      TaskRow(rows, rows', ids, active, nb, task, at[task], perm, goal, other, 32);
    }
  }

  /** A block whose rows are all behind it, or that was done before, is done. */
  lemma UnderEnd(rows: seq<seq<real>>, was: seq<seq<real>>, ids: seq<int>, active: seq<nat>, nb: nat, at: seq<nat>,
                 perm: bool, goal: Goal, task: nat)
    requires Under(rows, was, ids, active, nb, at, perm, goal) && nb > 0 && task / nb < |active|
    requires (task < |at| && at[task] == 32) || TaskDone(was, ids, active, nb, task, goal)
    ensures TaskDone(rows, ids, active, nb, task, goal)
  {
    NoRowsDone(rows, ids, active[task / nb], task % nb, perm, goal);
    if !(task < |at| && at[task] == 32) { assert TaskAt(was, ids, active, nb, task, 32, perm, goal); }
    assert TaskAt(rows, ids, active, nb, task, 32, perm, goal);
  }

  /** Every task of a phase is a block of one of the active experts. */
  predicate Dealt(active: seq<nat>, experts: nat) {
    forall e :: e in active ==> e < experts
  }

  lemma TaskInRange(active: seq<nat>, experts: nat, nb: nat, task: nat)
    requires Dealt(active, experts) && task < |active| * nb
    ensures nb > 0 && task / nb < |active| && active[task / nb] < experts
  {
    TaskBounds(task, |active|, nb);
    assert active[task / nb] in active;
  }

  /** Blocks with all their rows in the loop are done, and so are those that were before it. */
  ghost predicate Advanced(rows: seq<seq<real>>, was: seq<seq<real>>, ids: seq<int>, active: seq<nat>, nb: nat,
                           order: seq<nat>, goal: Goal) {
    forall task: nat :: task < |active| * nb ==>
      (multiset(order)[task] == 32 || TaskDone(was, ids, active, nb, task, goal) ==>
       TaskDone(rows, ids, active, nb, task, goal))
  }

  /** Cell c of pair i belongs to a block of the loop. */
  ghost predicate InBlocks(ids: seq<int>, active: seq<nat>, nb: nat, order: seq<nat>, i: nat, c: nat) {
    exists task :: task in order && InBlock(ids, active, nb, task, i, c)
  }

  predicate InBlock(ids: seq<int>, active: seq<nat>, nb: nat, task: nat, i: nat, c: nat) {
    nb > 0 && task / nb < |active| && i < |ids| && ids[i] == active[task / nb] && c / 32 == task % nb
  }

  /** Cells outside the loop's blocks are as they were. */
  ghost predicate Framed(rows: seq<seq<real>>, was: seq<seq<real>>, ids: seq<int>, active: seq<nat>, nb: nat,
                         order: seq<nat>) {
    && |rows| == |was|
    && forall i: nat, c: nat :: i < |was| && c < |was[i]| ==>
         |rows[i]| == |was[i]| && (InBlocks(ids, active, nb, order, i, c) || rows[i][c] == was[i][c])
  }

  lemma FramedRow(rows: seq<seq<real>>, rows': seq<seq<real>>, was: seq<seq<real>>, ids: seq<int>, active: seq<nat>,
                  nb: nat, order: seq<nat>, task: nat, k: nat, perm: bool, goal: Goal)
    requires Framed(rows, was, ids, active, nb, order) && task in order && Rows(was, nb * 32)
    requires TaskStep(rows, rows', ids, active, nb, task, k, perm, goal)
    ensures Framed(rows', was, ids, active, nb, order)
  {
    hide InBlocks, Place, Pairs;
    var e, pos := active[task / nb], task % nb * 32 + Place(perm, k);
    PairsExact(ids, |ids|, e);
    forall i: nat, c: nat | i < |was| && c < |was[i]|
      ensures |rows'[i]| == |was[i]| && (InBlocks(ids, active, nb, order, i, c) || rows'[i][c] == was[i][c])
    {
      if i in Pairs(ids, |ids|, e) && c == pos { InThisBlock(ids, active, nb, order, task, i, c); }
    }
  }

  lemma InThisBlock(ids: seq<int>, active: seq<nat>, nb: nat, order: seq<nat>, task: nat, i: nat, c: nat)
    requires task in order && InBlock(ids, active, nb, task, i, c)
    ensures InBlocks(ids, active, nb, order, i, c)
  {
  }

  lemma FramedStart(rows: seq<seq<real>>, ids: seq<int>, active: seq<nat>, nb: nat, order: seq<nat>)
    ensures Framed(rows, rows, ids, active, nb, order)
  {
  }

  /** The rows behind each block are its occurrences so far. */
  predicate Counts(order: seq<nat>, q: nat, at: seq<nat>)
    requires q <= |order|
  {
    forall task: nat :: task < |at| ==> at[task] == multiset(order[..q])[task]
  }

  lemma CountsNext(order: seq<nat>, q: nat, at: seq<nat>)
    requires q < |order| && order[q] < |at| && Counts(order, q, at) && multiset(order)[order[q]] <= 32
    ensures at[order[q]] < 32
    ensures Counts(order, q + 1, at[order[q] := at[order[q]] + 1])
  {
    assert order[..q + 1] == order[..q] + [order[q]];
    assert order == order[..q] + [order[q]] + order[q + 1..];
  }

  /** A worksharing loop over gate/up blocks, their rows interleaved as order says; each thread's block has a row
      variable of its own. What earlier blocks did stays done. */
  method RunGateUp(L: Layer, ghost moe: Moe, ghost batch: Batch, order: seq<nat>, active: seq<nat>, starts: seq<nat>,
                   slots: seq<nat>, K: nat, xp: seq<seq<real>>, hp: array<seq<real>>, tmp: array<real>,
                   ghost goal: Goal)
    requires L.Holds(moe) && InputsReady(moe, batch, xp) && batch.K == K && HiddenGoal(moe, batch, goal)
    requires Grouped(batch.ids, L.E, starts, slots) && Dealt(active, L.E)
    requires forall task :: task in order ==> task < |active| * L.ig && multiset(order)[task] <= 32
    requires |batch.ids| <= hp.Length && Rows(hp[..], L.ig * 32) && tmp.Length == 2 * (L.hg * 32)
    modifies hp, tmp
    ensures Rows(hp[..], L.ig * 32)
    ensures Advanced(hp[..], old(hp[..]), batch.ids, active, L.ig, order, goal)
    ensures Framed(hp[..], old(hp[..]), batch.ids, active, L.ig, order)
  {
    hide HiddenGoal, InputsReady, ColumnSet, TaskDone, Grouped, Under, Counts, Framed;
    ghost var was := hp[..];
    var at := seq(|active| * L.ig, _ => 0);
    UnderStart(was, batch.ids, active, L.ig, at, true, goal);
    FramedStart(was, batch.ids, active, L.ig, order);
    CountsStart(order, at);
    for q := 0 to |order|
      invariant Rows(hp[..], L.ig * 32) && |at| == |active| * L.ig && Counts(order, q, at)
      invariant Under(hp[..], was, batch.ids, active, L.ig, at, true, goal)
      invariant Framed(hp[..], was, batch.ids, active, L.ig, order)
    {
      var task := order[q];
      assert task in order;
      TaskInRange(active, L.E, L.ig, task);
      CountsNext(order, q, at);
      var e, rb := active[task / L.ig], task % L.ig;
      var group := GroupOfTask(batch, L.E, starts, slots, e);
      ghost var before := hp[..];
      GateUpOne(L, moe, batch, e, rb, at[task], group, K, xp, hp, tmp, goal);
      UnderRow(before, hp[..], was, batch.ids, active, L.ig, at, task, true, goal);
      FramedRow(before, hp[..], was, batch.ids, active, L.ig, order, task, at[task], true, goal);
      ColumnKeepsRows(before, hp[..], group, rb * 32 + Place(true, at[task]), goal, L.ig * 32);
      at := at[task := at[task] + 1];
    }
    LoopDone(order, hp[..], was, batch.ids, active, L.E, L.ig, at, true, goal);
  }

  lemma CountsStart(order: seq<nat>, at: seq<nat>)
    requires forall task :: 0 <= task < |at| ==> at[task] == 0
    ensures Counts(order, 0, at)
  {
    assert order[..0] == [];
  }

  /** The expert's pairs. */
  method GroupOfTask(ghost batch: Batch, experts: nat, starts: seq<nat>, slots: seq<nat>, e: nat)
    returns (group: seq<nat>)
    requires Grouped(batch.ids, experts, starts, slots) && e < experts
    ensures group == Pairs(batch.ids, |batch.ids|, e)
  {
    assert GroupOf(batch.ids, starts, slots, e);
    group := slots[starts[e]..starts[e + 1]];
  }

  lemma LoopDone(order: seq<nat>, rows: seq<seq<real>>, was: seq<seq<real>>, ids: seq<int>, active: seq<nat>,
                 experts: nat, nb: nat, at: seq<nat>, perm: bool, goal: Goal)
    requires Under(rows, was, ids, active, nb, at, perm, goal) && |at| == |active| * nb && Counts(order, |order|, at)
    requires Dealt(active, experts)
    ensures Advanced(rows, was, ids, active, nb, order, goal)
  {
    hide Under, TaskDone;
    assert order[..|order|] == order;
    forall task: nat | task < |active| * nb
                       && (multiset(order)[task] == 32 || TaskDone(was, ids, active, nb, task, goal))
      ensures TaskDone(rows, ids, active, nb, task, goal)
    {
      TaskInRange(active, experts, nb, task);
      UnderEnd(rows, was, ids, active, nb, at, perm, goal, task);
    }
  }

  method RunDown(L: Layer, ghost moe: Moe, ghost batch: Batch, order: seq<nat>, active: seq<nat>, starts: seq<nat>,
                 slots: seq<nat>, hp: seq<seq<real>>, yp: array<seq<real>>, tmp: array<real>, ghost goal: Goal)
    requires L.Holds(moe) && HiddenReady(moe, batch, hp) && OutputGoal(moe, batch, goal)
    requires Grouped(batch.ids, L.E, starts, slots) && Dealt(active, L.E)
    requires forall task :: task in order ==> task < |active| * L.hg && multiset(order)[task] <= 32
    requires |batch.ids| <= yp.Length && Rows(yp[..], L.hg * 32) && L.ig * 32 <= tmp.Length
    modifies yp, tmp
    ensures Rows(yp[..], L.hg * 32)
    ensures Advanced(yp[..], old(yp[..]), batch.ids, active, L.hg, order, goal)
    ensures Framed(yp[..], old(yp[..]), batch.ids, active, L.hg, order)
  {
    hide OutputGoal, HiddenReady, ColumnSet, TaskDone, Grouped, Under, Counts, Framed;
    ghost var was := yp[..];
    var at := seq(|active| * L.hg, _ => 0);
    UnderStart(was, batch.ids, active, L.hg, at, false, goal);
    FramedStart(was, batch.ids, active, L.hg, order);
    CountsStart(order, at);
    for q := 0 to |order|
      invariant Rows(yp[..], L.hg * 32) && |at| == |active| * L.hg && Counts(order, q, at)
      invariant Under(yp[..], was, batch.ids, active, L.hg, at, false, goal)
      invariant Framed(yp[..], was, batch.ids, active, L.hg, order)
    {
      var task := order[q];
      assert task in order;
      TaskInRange(active, L.E, L.hg, task);
      CountsNext(order, q, at);
      var e, rb := active[task / L.hg], task % L.hg;
      var group := GroupOfTask(batch, L.E, starts, slots, e);
      ghost var before := yp[..];
      DownOne(L, moe, batch, e, rb, at[task], group, hp, yp, tmp, goal);
      UnderRow(before, yp[..], was, batch.ids, active, L.hg, at, task, false, goal);
      FramedRow(before, yp[..], was, batch.ids, active, L.hg, order, task, at[task], false, goal);
      ColumnKeepsRows(before, yp[..], group, rb * 32 + Place(false, at[task]), goal, L.hg * 32);
      at := at[task := at[task] + 1];
    }
    LoopDone(order, yp[..], was, batch.ids, active, L.E, L.hg, at, false, goal);
  }

  // ----- a block alone

  /** A cell of the block has its goal, any other cell what it had. */
  predicate CellWritten(was: seq<seq<real>>, rows: seq<seq<real>>, ids: seq<int>, e: nat, rb: nat, goal: Goal, i: nat,
                        c: nat)
    requires i < |was| == |rows| && c < |was[i]|
  {
    && |rows[i]| == |was[i]|
    && rows[i][c] == if i < |ids| && ids[i] == e && c / 32 == rb then goal(i, c) else was[i][c]
  }

  /** Exactly the cells of one block of one expert's pairs have changed, to their goals. */
  ghost predicate BlockWritten(was: seq<seq<real>>, rows: seq<seq<real>>, ids: seq<int>, e: nat, rb: nat, goal: Goal) {
    && |rows| == |was|
    && forall i: nat, c: nat :: i < |was| && c < |was[i]| ==> CellWritten(was, rows, ids, e, rb, goal, i, c)
  }

  /** The rows of one block, one after the other. */
  function Alone(rb: nat, n: nat): (order: seq<nat>)
    ensures multiset(order)[rb] == n && forall task :: task in order ==> task == rb
  {
    if n == 0 then [] else Alone(rb, n - 1) + [rb]
  }

  lemma AloneBlock(ids: seq<int>, e: nat, rb: nat, nb: nat, i: nat, c: nat)
    requires rb < nb
    ensures InBlocks(ids, [e], nb, Alone(rb, 32), i, c) ==> i < |ids| && ids[i] == e && c / 32 == rb
  {
    hide Alone;
    DivMod(0, nb, rb);
  }

  lemma AloneDone(was: seq<seq<real>>, rows: seq<seq<real>>, ids: seq<int>, e: nat, rb: nat, nb: nat, goal: Goal)
    requires rb < nb && Advanced(rows, was, ids, [e], nb, Alone(rb, 32), goal)
    ensures BlockDone(rows, ids, e, rb, goal)
  {
    hide Alone, BlockDone;
    DivMod(0, nb, rb);
    assert TaskDone(rows, ids, [e], nb, rb, goal);
  }

  lemma AloneCell(was: seq<seq<real>>, rows: seq<seq<real>>, ids: seq<int>, e: nat, rb: nat, nb: nat, goal: Goal,
                  i: nat, c: nat)
    requires rb < nb && Framed(rows, was, ids, [e], nb, Alone(rb, 32)) && BlockDone(rows, ids, e, rb, goal)
    requires i < |was| && c < |was[i]|
    ensures |rows| == |was| && CellWritten(was, rows, ids, e, rb, goal, i, c)
  {
    hide Alone, InBlocks;
    AloneBlock(ids, e, rb, nb, i, c);
    assert |rows[i]| == |was[i]|;
    if i < |ids| && ids[i] == e && c / 32 == rb {
      assert rb * 32 <= c < rb * 32 + 32;
      assert rows[i][c] == goal(i, c);
    } else {
      assert !InBlocks(ids, [e], nb, Alone(rb, 32), i, c);
      assert rows[i][c] == was[i][c];
    }
  }

  lemma AloneWrites(was: seq<seq<real>>, rows: seq<seq<real>>, ids: seq<int>, e: nat, rb: nat, nb: nat, goal: Goal)
    requires rb < nb
    requires Advanced(rows, was, ids, [e], nb, Alone(rb, 32), goal) && Framed(rows, was, ids, [e], nb, Alone(rb, 32))
    ensures BlockWritten(was, rows, ids, e, rb, goal)
  {
    AloneDone(was, rows, ids, e, rb, nb, goal);
    assert |rows| == |was|;
    hide Alone, Advanced, Framed, BlockDone, CellWritten;
    forall i: nat, c: nat | i < |was| && c < |was[i]|
      ensures CellWritten(was, rows, ids, e, rb, goal, i, c)
    {
      AloneCell(was, rows, ids, e, rb, nb, goal, i, c);
    }
  }

  /** gateup_task run without interruption: the loop over this block only. */
  method GateUpTask(L: Layer, ghost moe: Moe, ghost batch: Batch, task: nat, active: seq<nat>, starts: seq<nat>,
                    slots: seq<nat>, K: nat, xp: seq<seq<real>>, hp: array<seq<real>>, tmp: array<real>,
                    ghost goal: Goal)
    requires L.Holds(moe) && InputsReady(moe, batch, xp) && batch.K == K && HiddenGoal(moe, batch, goal)
    requires Grouped(batch.ids, L.E, starts, slots)
    requires L.ig > 0 && task / L.ig < |active| && active[task / L.ig] < L.E
    requires |batch.ids| <= hp.Length && Rows(hp[..], L.ig * 32) && tmp.Length == 2 * (L.hg * 32)
    modifies hp, tmp
    ensures BlockWritten(old(hp[..]), hp[..], batch.ids, active[task / L.ig], task % L.ig, goal)
  {
    hide HiddenGoal, InputsReady, Grouped, Advanced, Framed, BlockWritten;
    var e, rb := active[task / L.ig], task % L.ig;
    RunGateUp(L, moe, batch, Alone(rb, 32), [e], starts, slots, K, xp, hp, tmp, goal);
    AloneWrites(old(hp[..]), hp[..], batch.ids, e, rb, L.ig, goal);
  }

  /** down_task run without interruption. */
  method DownTask(L: Layer, ghost moe: Moe, ghost batch: Batch, task: nat, active: seq<nat>, starts: seq<nat>,
                  slots: seq<nat>, hp: seq<seq<real>>, yp: array<seq<real>>, tmp: array<real>, ghost goal: Goal)
    requires L.Holds(moe) && HiddenReady(moe, batch, hp) && OutputGoal(moe, batch, goal)
    requires Grouped(batch.ids, L.E, starts, slots)
    requires L.hg > 0 && task / L.hg < |active| && active[task / L.hg] < L.E
    requires |batch.ids| <= yp.Length && Rows(yp[..], L.hg * 32) && L.ig * 32 <= tmp.Length
    modifies yp, tmp
    ensures BlockWritten(old(yp[..]), yp[..], batch.ids, active[task / L.hg], task % L.hg, goal)
  {
    hide OutputGoal, HiddenReady, Grouped, Advanced, Framed, BlockWritten;
    var e, rb := active[task / L.hg], task % L.hg;
    RunDown(L, moe, batch, Alone(rb, 32), [e], starts, slots, hp, yp, tmp, goal);
    AloneWrites(old(yp[..]), yp[..], batch.ids, e, rb, L.hg, goal);
  }

  // ----- all tasks done

  /** The active experts, ascending. */
  ghost predicate Active(starts: seq<nat>, active: seq<nat>) {
    && (forall e: nat :: e in active <==> HasWork(starts, e))
    && forall a, b :: 0 <= a < b < |active| ==> active[a] < active[b]
  }

  /** Once every task has run, every cell of every routed pair holds its goal. */
  lemma AllCells(batch: Batch, experts: nat, starts: seq<nat>, slots: seq<nat>, active: seq<nat>, nb: nat,
                 rows: seq<seq<real>>, goal: Goal, i: nat, c: nat)
    requires Grouped(batch.ids, experts, starts, slots) && Active(starts, active)
    requires forall task: nat :: task < |active| * nb ==> TaskDone(rows, batch.ids, active, nb, task, goal)
    requires |batch.ids| <= |rows| && Rows(rows, nb * 32)
    requires i < |batch.ids| && Routed(batch.ids[i], experts) && c < nb * 32
    ensures rows[i][c] == goal(i, c)
  {
    hide Grouped;
    var task := OneTaskPerCell(batch, experts, starts, slots, active, nb, i, c);
    assert TaskDone(rows, batch.ids, active, nb, task, goal);
    assert c == c / 32 * 32 + c % 32;
  }

  lemma HiddenDone(moe: Moe, batch: Batch, starts: seq<nat>, slots: seq<nat>, active: seq<nat>,
                   hp: seq<seq<real>>, goal: Goal, i: nat)
    requires HiddenGoal(moe, batch, goal)
    requires Grouped(batch.ids, moe.E, starts, slots) && Active(starts, active)
    requires forall task: nat :: task < |active| * moe.ig ==> TaskDone(hp, batch.ids, active, moe.ig, task, goal)
    requires |batch.ids| <= |hp| && Rows(hp, moe.I()) && i < |batch.ids| && Routed(batch.ids[i], moe.E)
    ensures HiddenRow(moe, batch, hp, i)
  {
    hide Grouped, Active, TaskDone, Permuted, moe.Unit;
    var h := moe.Hidden(batch.ids[i], batch.xs[batch.Token(i)]);
    var want := Permuted(h, moe.ig);
    forall c: nat | c < |want|
      ensures hp[i][c] == want[c]
    {
      var rb, k := c / 32, NaturalPos(c % 32);
      assert rb < moe.ig && c == rb * 32 + PermPos(k);
      PermutedCell(h, moe.ig, rb, k);
      AllCells(batch, moe.E, starts, slots, active, moe.ig, hp, goal, i, c);
      assert HiddenCell(moe, batch, goal, i, rb, k);
    }
    assert hp[i] == want;
  }

  /** After the gate/up phase every hidden row a down task reads is complete. */
  lemma PhaseOneDone(moe: Moe, batch: Batch, starts: seq<nat>, slots: seq<nat>, active: seq<nat>, hp: seq<seq<real>>,
                     goal: Goal)
    requires HiddenGoal(moe, batch, goal)
    requires Grouped(batch.ids, moe.E, starts, slots) && Active(starts, active)
    requires forall task: nat :: task < |active| * moe.ig ==> TaskDone(hp, batch.ids, active, moe.ig, task, goal)
    requires |batch.ids| <= |hp| && Rows(hp, moe.I())
    ensures HiddenReady(moe, batch, hp)
  {
    hide Grouped, Active, TaskDone, HiddenRow;
    forall i | 0 <= i < |batch.ids| && Routed(batch.ids[i], moe.E)
      ensures HiddenRow(moe, batch, hp, i)
    {
      HiddenDone(moe, batch, starts, slots, active, hp, goal, i);
    }
  }

  /** Every routed pair's output row is complete. */
  ghost predicate OutputsReady(moe: Moe, batch: Batch, yp: seq<seq<real>>) {
    && moe.Ok() && batch.Ok(moe.H()) && |batch.ids| <= |yp|
    && forall i :: 0 <= i < |batch.ids| && Routed(batch.ids[i], moe.E) ==> OutputRow(moe, batch, yp, i)
  }

  ghost predicate OutputRow(moe: Moe, batch: Batch, yp: seq<seq<real>>, i: nat)
    requires moe.Ok() && batch.Ok(moe.H()) && i < |batch.ids| <= |yp| && Routed(batch.ids[i], moe.E)
  {
    && |yp[i]| == moe.H()
    && forall r: nat :: r < moe.H() ==> yp[i][r] == moe.Down(batch.ids[i], batch.xs[batch.Token(i)], r)
  }

  lemma PhaseTwoDone(moe: Moe, batch: Batch, starts: seq<nat>, slots: seq<nat>, active: seq<nat>, yp: seq<seq<real>>,
                     goal: Goal)
    requires OutputGoal(moe, batch, goal)
    requires Grouped(batch.ids, moe.E, starts, slots) && Active(starts, active)
    requires forall task: nat :: task < |active| * moe.hg ==> TaskDone(yp, batch.ids, active, moe.hg, task, goal)
    requires |batch.ids| <= |yp| && Rows(yp, moe.H())
    ensures OutputsReady(moe, batch, yp)
  {
    hide Grouped, Active, TaskDone, moe.Down;
    forall i: nat, r: nat | i < |batch.ids| && Routed(batch.ids[i], moe.E) && r < moe.H()
      ensures yp[i][r] == moe.Down(batch.ids[i], batch.xs[batch.Token(i)], r)
    {
      AllCells(batch, moe.E, starts, slots, active, moe.hg, yp, goal, i, r);
      assert OutputCell(moe, batch, goal, i, r);
    }
  }

  // ----- the ends of the pipeline

  /** Permutes the decoded inputs into the scratch rows. */
  method PermuteInputs(L: Layer, ghost moe: Moe, ghost batch: Batch, x: seq<seq<nat>>, xp: array<seq<real>>)
    requires moe.ar == L.ar && moe.hg == L.hg && batch.Ok(moe.H()) && batch.xs == Decoded(L.ar, x)
    requires |x| <= xp.Length && Rows(xp[..], L.hg * 32)
    modifies xp
    ensures InputsReady(moe, batch, xp[..]) && Rows(xp[..], L.hg * 32)
  {
    for t := 0 to |x|
      invariant Rows(xp[..], L.hg * 32)
      invariant forall s :: 0 <= s < t ==> xp[s] == Permuted(batch.xs[s], moe.hg)
    {
      var row := DecodeRow(L.ar, x[t]);
      assert batch.xs[t] == row;
      xp[t] := PermuteRow(row, xp[t], L.hg);
    }
  }

  /** row[j] = bf16_to_f32(x[t][j]) */
  method DecodeRow(ar: Arith, x: seq<nat>) returns (row: seq<real>)
    ensures row == DecodedRow(ar, x)
  {
    row := [];
    for j := 0 to |x|
      invariant |row| == j && forall i :: 0 <= i < j ==> row[i] == ar.fromBf16(x[i])
    {
      row := row + [ar.fromBf16(x[j])];
    }
  }

  function DecodedRow(ar: Arith, x: seq<nat>): (r: seq<real>)
    ensures |r| == |x|
  {
    seq(|x|, j requires 0 <= j < |x| => ar.fromBf16(x[j]))
  }

  function Decoded(ar: Arith, x: seq<seq<nat>>): (r: seq<seq<real>>)
    ensures |r| == |x|
    ensures forall t :: 0 <= t < |x| ==> r[t] == DecodedRow(ar, x[t])
  {
    seq(|x|, t requires 0 <= t < |x| => DecodedRow(ar, x[t]))
  }

  /** Output j of token t: the naive sum over its routed slots, in the checkpoint's own order. */
  ghost function Naive(moe: Moe, batch: Batch, t: nat, j: nat, k: nat): real
    requires moe.Ok() && batch.Ok(moe.H()) && t < |batch.xs| && j < moe.H() && k <= batch.K
  {
    SlotBounds(t, |batch.xs|, batch.K);
    moe.Combined(batch.ids[t * batch.K..t * batch.K + batch.K], batch.wts[t * batch.K..t * batch.K + batch.K],
                 batch.xs[t], j, k)
  }

  lemma SlotBounds(t: nat, M: nat, K: nat)
    requires t < M
    ensures 0 <= t * K <= t * K + K <= M * K
  {
    MulOrder(t, M, K);
  }

  /** One more slot of a token. */
  lemma NaiveSlot(moe: Moe, batch: Batch, t: nat, j: nat, k: nat, i: nat)
    requires moe.Ok() && batch.Ok(moe.H()) && t < |batch.xs| && j < moe.H() && k < batch.K && i == t * batch.K + k
    ensures i < |batch.ids|
    ensures Naive(moe, batch, t, j, k + 1) == Naive(moe, batch, t, j, k)
              + if Routed(batch.ids[i], moe.E) then Mul(batch.wts[i], moe.Down(batch.ids[i], batch.xs[t], j)) else 0.0
    ensures batch.Token(i) == t
  {
    hide moe.Down, Mul;
    SlotBounds(t, |batch.xs|, batch.K);
    PairIndex(t, k, |batch.xs|, batch.K);
    assert batch.ids[t * batch.K..t * batch.K + batch.K][k] == batch.ids[i];
    assert batch.wts[t * batch.K..t * batch.K + batch.K][k] == batch.wts[i];
  }

  /** The accumulator of token t after k slots. */
  ghost predicate Accumulated(moe: Moe, batch: Batch, t: nat, k: nat, acc: seq<real>)
    requires moe.Ok() && batch.Ok(moe.H()) && t < |batch.xs| && k <= batch.K
  {
    |acc| >= moe.H() && forall j: nat :: j < moe.H() ==> acc[j] == Naive(moe, batch, t, j, k)
  }

  /** acc[j] += wgt * y[j]. */
  method AddScaled(acc: array<real>, wgt: real, y: seq<real>)
    requires |y| <= acc.Length
    modifies acc
    ensures forall j :: 0 <= j < |y| ==> acc[j] == old(acc[j]) + Mul(wgt, y[j])
  {
    for j := 0 to |y|
      invariant forall d :: 0 <= d < j ==> acc[d] == old(acc[d]) + Mul(wgt, y[d])
      invariant forall d :: j <= d < acc.Length ==> acc[d] == old(acc[d])
    {
      acc[j] := acc[j] + Mul(wgt, y[j]);
    }
  }

  lemma AccumulateSlot(moe: Moe, batch: Batch, t: nat, k: nat, i: nat, yp: seq<seq<real>>, acc: seq<real>,
                       acc': seq<real>)
    requires OutputsReady(moe, batch, yp) && t < |batch.xs| && k < batch.K && i == t * batch.K + k
    requires Accumulated(moe, batch, t, k, acc) && |acc'| == |acc|
    requires i < |batch.ids|
    requires if Routed(batch.ids[i], moe.E) then
               |yp[i]| == moe.H() && forall j: nat :: j < moe.H() ==> acc'[j] == acc[j] + Mul(batch.wts[i], yp[i][j])
             else acc' == acc
    ensures Accumulated(moe, batch, t, k + 1, acc')
  {
    hide Naive, Mul, moe.Down;
    forall j: nat | j < moe.H()
      ensures acc'[j] == Naive(moe, batch, t, j, k + 1)
    {
      NaiveSlot(moe, batch, t, j, k, i);
      assert Routed(batch.ids[i], moe.E) ==> OutputRow(moe, batch, yp, i);
    }
  }

  /** Slot k of token t, unless it is padding. */
  method CombineSlot(ghost moe: Moe, ghost batch: Batch, E: nat, ids: seq<int>, wts: seq<real>, ghost t: nat,
                     ghost k: nat, i: nat, yp: seq<seq<real>>, tmp: array<real>)
    requires OutputsReady(moe, batch, yp) && t < |batch.xs| && batch.ids == ids && batch.wts == wts && moe.E == E
    requires k < batch.K && i == t * batch.K + k && i < |ids| && moe.H() <= tmp.Length
    requires Accumulated(moe, batch, t, k, tmp[..])
    modifies tmp
    ensures Accumulated(moe, batch, t, k + 1, tmp[..])
  {
    hide OutputsReady, Accumulated;
    ghost var before := tmp[..];
    if 0 <= ids[i] < E {
      RoutedRow(moe, batch, yp, i);
      AddScaled(tmp, wts[i], yp[i]);
    }
    AccumulateSlot(moe, batch, t, k, i, yp, before, tmp[..]);
  }

  /** The weighted sum of one token's routed slots. */
  method CombineToken(ghost moe: Moe, ghost batch: Batch, E: nat, H: nat, ids: seq<int>, wts: seq<real>, K: nat, t: nat,
                      yp: seq<seq<real>>, tmp: array<real>)
    requires OutputsReady(moe, batch, yp) && t < |batch.xs| && batch.ids == ids && batch.wts == wts && batch.K == K
    requires moe.E == E && moe.H() == H <= tmp.Length
    modifies tmp
    ensures Accumulated(moe, batch, t, K, tmp[..])
  {
    hide Naive;
    ClearPrefix(tmp, H);
    NothingAdded(moe, batch, t, tmp[..]);
    hide Accumulated;
    for k := 0 to K
      invariant Accumulated(moe, batch, t, k, tmp[..])
    {
      PairIndex(t, k, |batch.xs|, K);
      CombineSlot(moe, batch, E, ids, wts, t, k, t * K + k, yp, tmp);
    }
  }

  method ClearPrefix(acc: array<real>, n: nat)
    requires n <= acc.Length
    modifies acc
    ensures forall j :: 0 <= j < n ==> acc[j] == 0.0
  {
    for j := 0 to n
      invariant forall d :: 0 <= d < j ==> acc[d] == 0.0
    {
      acc[j] := 0.0;
    }
  }

  lemma NothingAdded(moe: Moe, batch: Batch, t: nat, acc: seq<real>)
    requires moe.Ok() && batch.Ok(moe.H()) && t < |batch.xs| && |acc| >= moe.H()
    requires forall j :: 0 <= j < moe.H() ==> acc[j] == 0.0
    ensures Accumulated(moe, batch, t, 0, acc)
  {
  }

  lemma RoutedRow(moe: Moe, batch: Batch, yp: seq<seq<real>>, i: nat)
    requires OutputsReady(moe, batch, yp) && i < |batch.ids| && Routed(batch.ids[i], moe.E)
    ensures i < |yp| && |yp[i]| == moe.H() && i < |batch.wts|
  {
    assert OutputRow(moe, batch, yp, i);
  }

  /** Row t of the result. */
  ghost predicate RowWritten(moe: Moe, batch: Batch, t: nat, row: seq<nat>)
    requires moe.Ok() && batch.Ok(moe.H()) && t < |batch.xs|
  {
    |row| == moe.H() && forall j: nat :: j < moe.H() ==> row[j] == moe.ar.toBf16(Naive(moe, batch, t, j, batch.K))
  }

  method CombineAll(L: Layer, ghost moe: Moe, ghost batch: Batch, M: nat, ids: seq<int>, wts: seq<real>, K: nat,
                    yp: seq<seq<real>>, tmp: array<real>, out: array<seq<nat>>)
    requires OutputsReady(moe, batch, yp) && batch.ids == ids && batch.wts == wts && batch.K == K && |batch.xs| == M
    requires L.ar == moe.ar && L.E == moe.E && L.hg == moe.hg && tmp.Length == 2 * (L.hg * 32) && out.Length == M
    modifies tmp, out
    ensures forall t :: 0 <= t < M ==> RowWritten(moe, batch, t, out[t])
  {
    hide Naive;
    for t := 0 to M
      invariant moe.Ok() && batch.Ok(moe.H())
      invariant forall s :: 0 <= s < t ==> RowWritten(moe, batch, s, out[s])
    {
      CombineToken(moe, batch, L.E, L.hg * 32, ids, wts, K, t, yp, tmp);
      var acc := tmp[..];
      out[t] := seq(L.hg * 32, j requires 0 <= j < L.hg * 32 <= |acc| => L.ar.toBf16(acc[j]));
    }
  }

  // ----- the call

  /** How each of the four worksharing loops interleaves the rows of its blocks. */
  datatype Orders = Orders(gateUpDynamic: seq<nat>, gateUpStatic: seq<nat>, downDynamic: seq<nat>, downStatic: seq<nat>)

  ghost predicate LegalOrders(orders: Orders, M: nat, n13: nat, n2: nat) {
    && Schedule(orders.gateUpDynamic, Split(M, n13), n13) && Schedule(orders.gateUpStatic, 0, Split(M, n13))
    && Schedule(orders.downDynamic, Split(M, n2), n2) && Schedule(orders.downStatic, 0, Split(M, n2))
  }

  /** Legal whatever number of experts turns out to be active. */
  ghost predicate LegalFor(orders: nat -> Orders, M: nat, ig: nat, hg: nat) {
    forall n: nat :: LegalOrders(orders(n), M, n * ig, n * hg)
  }

  lemma ActiveDealt(starts: seq<nat>, active: seq<nat>, experts: nat)
    requires Active(starts, active) && |starts| == experts + 1
    ensures Dealt(active, experts)
  {
  }

  lemma RowsAtMost(dynamicOrder: seq<nat>, staticOrder: seq<nat>, tasks: nat, split: nat)
    requires Schedule(dynamicOrder, split, tasks) && Schedule(staticOrder, 0, split)
    ensures forall x :: x in dynamicOrder ==> multiset(dynamicOrder)[x] <= 32
    ensures forall x :: x in staticOrder ==> multiset(staticOrder)[x] <= 32
  {
  }

  method GateUpPhase(L: Layer, ghost moe: Moe, ghost batch: Batch, M: nat, dynamicOrder: seq<nat>,
                     staticOrder: seq<nat>, active: seq<nat>, starts: seq<nat>, slots: seq<nat>, K: nat,
                     xp: seq<seq<real>>, hp: array<seq<real>>, tmp: array<real>)
    requires L.Holds(moe) && InputsReady(moe, batch, xp) && batch.K == K
    requires Grouped(batch.ids, L.E, starts, slots) && Active(starts, active)
    requires Schedule(dynamicOrder, Split(M, |active| * L.ig), |active| * L.ig)
    requires Schedule(staticOrder, 0, Split(M, |active| * L.ig))
    requires |batch.ids| <= hp.Length && Rows(hp[..], L.ig * 32) && tmp.Length == 2 * (L.hg * 32)
    modifies hp, tmp
    ensures Rows(hp[..], L.ig * 32) && HiddenReady(moe, batch, hp[..])
  {
    ghost var goal := HiddenGoalExists(moe, batch);
    ActiveDealt(starts, active, L.E);
    OneLoopWorks(M, |active| * L.ig, dynamicOrder, staticOrder);
    RowsAtMost(dynamicOrder, staticOrder, |active| * L.ig, Split(M, |active| * L.ig));
    hide HiddenGoal, InputsReady, TaskDone, Grouped, Schedule, Active, HiddenReady;
    RunGateUp(L, moe, batch, dynamicOrder, active, starts, slots, K, xp, hp, tmp, goal);
    RunGateUp(L, moe, batch, staticOrder, active, starts, slots, K, xp, hp, tmp, goal);
    PhaseOneDone(moe, batch, starts, slots, active, hp[..], goal);
  }

  method DownPhase(L: Layer, ghost moe: Moe, ghost batch: Batch, M: nat, dynamicOrder: seq<nat>, staticOrder: seq<nat>,
                   active: seq<nat>, starts: seq<nat>, slots: seq<nat>, hp: seq<seq<real>>, yp: array<seq<real>>,
                   tmp: array<real>)
    requires L.Holds(moe) && HiddenReady(moe, batch, hp)
    requires Grouped(batch.ids, L.E, starts, slots) && Active(starts, active)
    requires Schedule(dynamicOrder, Split(M, |active| * L.hg), |active| * L.hg)
    requires Schedule(staticOrder, 0, Split(M, |active| * L.hg))
    requires |batch.ids| <= yp.Length && Rows(yp[..], L.hg * 32) && L.ig * 32 <= tmp.Length
    modifies yp, tmp
    ensures Rows(yp[..], L.hg * 32) && OutputsReady(moe, batch, yp[..])
  {
    ghost var goal := OutputGoalExists(moe, batch);
    ActiveDealt(starts, active, L.E);
    OneLoopWorks(M, |active| * L.hg, dynamicOrder, staticOrder);
    RowsAtMost(dynamicOrder, staticOrder, |active| * L.hg, Split(M, |active| * L.hg));
    hide OutputGoal, HiddenReady, TaskDone, Grouped, Schedule, Active, OutputsReady;
    RunDown(L, moe, batch, dynamicOrder, active, starts, slots, hp, yp, tmp, goal);
    RunDown(L, moe, batch, staticOrder, active, starts, slots, hp, yp, tmp, goal);
    PhaseTwoDone(moe, batch, starts, slots, active, yp[..], goal);
  }

  /** Grouping and the four parallel phases over scratch rows that are large enough. */
  method Compute(L: Layer, ghost moe: Moe, ghost batch: Batch, x: seq<seq<nat>>, ids: seq<int>, wts: seq<real>, K: nat,
                 orders: nat -> Orders, xp: array<seq<real>>, hp: array<seq<real>>, yp: array<seq<real>>,
                 out: array<seq<nat>>)
    requires L.Holds(moe) && L.ig <= 2 * L.hg && batch == Batch(Decoded(L.ar, x), ids, wts, K) && batch.Ok(moe.H())
    requires Rows(xp[..], L.hg * 32) && Rows(hp[..], L.ig * 32) && Rows(yp[..], L.hg * 32) && xp != hp && xp != yp
    requires hp != yp
    requires xp.Length >= |x| && hp.Length >= |ids| && yp.Length >= |ids| && out.Length == |x|
    requires LegalFor(orders, |x|, L.ig, L.hg)
    modifies xp, hp, yp, out
    ensures Rows(xp[..], L.hg * 32) && Rows(hp[..], L.ig * 32) && Rows(yp[..], L.hg * 32)
    ensures forall t :: 0 <= t < |x| ==> RowWritten(moe, batch, t, out[t])
  {
    hide InputsReady, HiddenReady, OutputsReady, RowWritten, Grouped, Schedule;
    var starts, slots := GroupByExpert(ids, L.E);
    GroupedShape(ids, L.E, starts[..], slots[..]);
    var active := ActiveExperts(L.E, starts[..]);
    var order := orders(|active|);
    assert LegalOrders(order, |x|, |active| * L.ig, |active| * L.hg);
    var tmp := new real[2 * (L.hg * 32)];
    PermuteInputs(L, moe, batch, x, xp);
    GateUpPhase(L, moe, batch, |x|, order.gateUpDynamic, order.gateUpStatic, active, starts[..], slots[..], K,
                xp[..], hp, tmp);
    DownPhase(L, moe, batch, |x|, order.downDynamic, order.downStatic, active, starts[..], slots[..], hp[..], yp, tmp);
    CombineAll(L, moe, batch, |x|, ids, wts, K, yp[..], tmp, out);
  }

  lemma GroupedShape(ids: seq<int>, experts: nat, starts: seq<nat>, slots: seq<nat>)
    requires Grouped(ids, experts, starts, slots)
    ensures |starts| == experts + 1
  {
  }

  /** cpu_moe_forward: whatever the scratch rows held and however the rows of running blocks interleave, row t
      of the result is the rounded naive sum over the token's routed slots. Dequantising a down row needs
      I <= 2 H, the size of a thread's scratch. */
  method Forward(L: Layer, ghost moe: Moe, x: seq<seq<nat>>, ids: seq<int>, wts: seq<real>, K: nat,
                 orders: nat -> Orders, out: array<seq<nat>>)
    requires L.Holds(moe) && L.Scratch() && L.ig <= 2 * L.hg
    requires |ids| == |wts| == |x| * K && out.Length == |x| && forall t :: 0 <= t < |x| ==> |x[t]| == L.hg * 32
    requires LegalFor(orders, |x|, L.ig, L.hg)
    modifies L`xp, L`hp, L`yp, L.xp, L.hp, L.yp, out
    ensures L.Scratch()
    ensures var batch := Batch(Decoded(L.ar, x), ids, wts, K);
            batch.Ok(moe.H()) && forall t :: 0 <= t < |x| ==> RowWritten(moe, batch, t, out[t])
  {
    hide LegalFor, RowWritten;
    L.Reserve(|x|, |ids|);
    Compute(L, moe, Batch(Decoded(L.ar, x), ids, wts, K), x, ids, wts, K, orders, L.xp, L.hp, L.yp, out);
  }

  // ----- masking

  /** The routing array with every slot of the tokens outside keep set to -1. */
  function Masked(ids: seq<int>, K: nat, keep: nat -> bool): (r: seq<int>)
    ensures |r| == |ids|
  {
    seq(|ids|, i requires 0 <= i < |ids| => if K > 0 && keep(i / K) then ids[i] else -1)
  }

  /** Masking rows never changes the rows that stay, and a masked row sums to nothing. */
  lemma MaskingIsLocal(moe: Moe, batch: Batch, keep: nat -> bool, t: nat, j: nat)
    requires moe.Ok() && batch.Ok(moe.H()) && t < |batch.xs| && j < moe.H()
    ensures var masked := Batch(batch.xs, Masked(batch.ids, batch.K, keep), batch.wts, batch.K);
            && masked.Ok(moe.H())
            && Naive(moe, masked, t, j, batch.K) == if keep(t) then Naive(moe, batch, t, j, batch.K) else 0.0
  {
    var K := batch.K;
    var ids, masked := batch.ids, Masked(batch.ids, K, keep);
    SlotBounds(t, |batch.xs|, K);
    var mine, theirs := masked[t * K..t * K + K], ids[t * K..t * K + K];
    forall k | 0 <= k < |mine|
      ensures mine[k] == if keep(t) then theirs[k] else -1
    {
      PairIndex(t, k, |batch.xs|, K);
    }
    if keep(t) {
      assert mine == theirs;
    } else {
      PaddingAddsNothing(moe, mine, batch.wts[t * K..t * K + K], batch.xs[t], j, K);
    }
  }

  lemma {:induction false} PaddingAddsNothing(moe: Moe, ids: seq<int>, wts: seq<real>, x: seq<real>, j: nat, k: nat)
    requires moe.Ok() && |x| == moe.H() && j < moe.H() && k <= |ids| == |wts|
    requires forall q :: 0 <= q < k ==> !Routed(ids[q], moe.E)
    ensures moe.Combined(ids, wts, x, j, k) == 0.0
  {
    if k > 0 { PaddingAddsNothing(moe, ids, wts, x, j, k - 1); }
  }
}
