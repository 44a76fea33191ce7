/** Grouping the (token, slot) pairs of a batch by expert: a three-loop counting sort. */
module Routing {

  /** Ids outside [0, experts) mark padding and are dropped. */
  predicate Routed(id: int, experts: nat) { 0 <= id < experts }

  /** The pair indices below n that are routed to e, in ascending order. */
  function Pairs(ids: seq<int>, n: nat, e: int): seq<nat>
    requires n <= |ids|
  {
    if n == 0 then []
    else if ids[n - 1] == e then Pairs(ids, n - 1, e) + [n - 1]
    else Pairs(ids, n - 1, e)
  }

  /** How many pairs below n go to experts before e. */
  function Start(ids: seq<int>, n: nat, e: nat): nat
    requires n <= |ids|
  {
    if e == 0 then 0 else Start(ids, n, e - 1) + |Pairs(ids, n, e - 1)|
  }

  /** Pairs is exactly the routed indices, strictly ascending. */
  lemma {:induction false} PairsExact(ids: seq<int>, n: nat, e: int)
    requires n <= |ids|
    ensures forall i: nat :: i in Pairs(ids, n, e) <==> i < n && ids[i] == e
    ensures forall a, b :: 0 <= a < b < |Pairs(ids, n, e)| ==> Pairs(ids, n, e)[a] < Pairs(ids, n, e)[b]
  {
    if n > 0 {
      PairsExact(ids, n - 1, e);
      var rest := Pairs(ids, n - 1, e);
      assert forall a :: 0 <= a < |rest| ==> rest[a] in rest;
    }
  }

  lemma {:induction false} PairsPrefix(ids: seq<int>, i: nat, n: nat, e: int)
    requires i <= n <= |ids|
    ensures Pairs(ids, i, e) <= Pairs(ids, n, e)
    decreases n
  {
    if i < n { PairsPrefix(ids, i, n - 1, e); }
  }

  lemma {:induction false} StartStep(ids: seq<int>, n: nat, e: nat)
    requires n < |ids|
    ensures Start(ids, n + 1, e) == Start(ids, n, e) + if 0 <= ids[n] < e then 1 else 0
    decreases e
  {
    if e > 0 { StartStep(ids, n, e - 1); }
  }

  /** The groups together hold exactly the routed pairs: every pair below n is counted at most once. */
  lemma {:induction false} StartCounts(ids: seq<int>, n: nat, e: nat)
    requires n <= |ids|
    ensures Start(ids, n, e) == |set i | 0 <= i < n && 0 <= ids[i] < e|
    ensures Start(ids, n, e) <= n
    decreases n
  {
    var s := set i | 0 <= i < n && 0 <= ids[i] < e;
    if n == 0 {
      assert s == {};
      StartZero(ids, e);
    } else {
      StartCounts(ids, n - 1, e);
      StartStep(ids, n - 1, e);
      var t := set i | 0 <= i < n - 1 && 0 <= ids[i] < e;
      assert s == if 0 <= ids[n - 1] < e then t + {n - 1} else t;
    }
  }

  lemma {:induction false} StartZero(ids: seq<int>, e: nat)
    ensures Start(ids, 0, e) == 0
  {
    if e > 0 { StartZero(ids, e - 1); }
  }

  lemma {:induction false} StartMonotone(ids: seq<int>, n: nat, d: nat, e: nat)
    requires n <= |ids| && d <= e
    ensures Start(ids, n, d) <= Start(ids, n, e)
    ensures d < e ==> Start(ids, n, d) + |Pairs(ids, n, d)| <= Start(ids, n, e)
    decreases e
  {
    if d < e { StartMonotone(ids, n, d, e - 1); }
  }

  /** starts[e]..starts[e + 1] in slots is the ascending list of e's pairs. */
  predicate GroupOf(ids: seq<int>, starts: seq<nat>, slots: seq<nat>, e: nat)
    requires e + 1 < |starts|
  {
    starts[e] <= starts[e + 1] <= |slots| && slots[starts[e]..starts[e + 1]] == Pairs(ids, |ids|, e)
  }

  ghost predicate Grouped(ids: seq<int>, experts: nat, starts: seq<nat>, slots: seq<nat>) {
    && |starts| == experts + 1 && |slots| == |ids|
    && forall e :: 0 <= e < experts ==> GroupOf(ids, starts, slots, e)
  }

  method GroupByExpert(ids: seq<int>, experts: nat) returns (starts: array<nat>, slots: array<nat>)
    ensures fresh(starts) && fresh(slots)
    ensures Grouped(ids, experts, starts[..], slots[..])
  {
    starts := CountPairs(ids, experts);
    PrefixSums(ids, experts, starts);
    slots := new nat[|ids|];
    FillSlots(ids, experts, starts[..], slots);
  }

  /** First loop: starts[e + 1] counts the pairs of e. */
  method CountPairs(ids: seq<int>, experts: nat) returns (starts: array<nat>)
    ensures fresh(starts) && starts.Length == experts + 1 && starts[0] == 0
    ensures forall e :: 0 <= e < experts ==> starts[e + 1] == |Pairs(ids, |ids|, e)|
  {
    starts := new nat[experts + 1](_ => 0);
    for i := 0 to |ids|
      invariant starts[0] == 0
      invariant forall e :: 0 <= e < experts ==> starts[e + 1] == |Pairs(ids, i, e)|
    {
      var e := ids[i];
      if 0 <= e < experts {
        starts[e + 1] := starts[e + 1] + 1;
      }
    }
  }

  /** Second loop: counts become starts. */
  method PrefixSums(ids: seq<int>, experts: nat, starts: array<nat>)
    requires starts.Length == experts + 1 && starts[0] == 0
    requires forall e :: 0 <= e < experts ==> starts[e + 1] == |Pairs(ids, |ids|, e)|
    modifies starts
    ensures forall e :: 0 <= e <= experts ==> starts[e] == Start(ids, |ids|, e)
  {
    for e := 0 to experts
      invariant forall d :: 0 <= d <= e ==> starts[d] == Start(ids, |ids|, d)
      invariant forall d :: e <= d < experts ==> starts[d + 1] == |Pairs(ids, |ids|, d)|
    {
      starts[e + 1] := starts[e + 1] + starts[e];
    }
  }

  /** Third loop: every pair goes to its expert's next free slot. */
  method FillSlots(ids: seq<int>, experts: nat, starts: seq<nat>, slots: array<nat>)
    requires |starts| == experts + 1 && slots.Length == |ids|
    requires forall e :: 0 <= e <= experts ==> starts[e] == Start(ids, |ids|, e)
    modifies slots
    ensures Grouped(ids, experts, starts, slots[..])
  {
    var fill := FillCursors(ids, experts, starts);
    StartsFilled(ids, experts, starts, slots[..]);
    for i := 0 to |ids|
      invariant Counted(ids, i, starts, fill[..])
      invariant AllFilled(ids, i, experts, starts, slots[..])
    {
      PlaceOne(ids, i, i + 1, experts, starts, fill, slots);
    }
    FilledGroups(ids, experts, starts, slots[..]);
  }

  method FillCursors(ghost ids: seq<int>, experts: nat, starts: seq<nat>) returns (fill: array<nat>)
    requires |starts| == experts + 1
    ensures fresh(fill) && fill.Length == experts && Counted(ids, 0, starts, fill[..])
  {
    fill := new nat[experts];
    for e := 0 to experts
      invariant forall d :: 0 <= d < e ==> fill[d] == starts[d]
    {
      fill[e] := starts[e];
    }
  }

  lemma StartsFilled(ids: seq<int>, experts: nat, starts: seq<nat>, slots: seq<nat>)
    requires |starts| == experts + 1 && |slots| == |ids|
    requires forall e :: 0 <= e <= experts ==> starts[e] == Start(ids, |ids|, e)
    ensures AllFilled(ids, 0, experts, starts, slots)
  {
    forall e | 0 <= e < experts
      ensures Filled(ids, 0, starts, slots, e)
    {
      StartCounts(ids, |ids|, e);
    }
  }

  method PlaceOne(ids: seq<int>, i: nat, ghost n: nat, experts: nat, starts: seq<nat>, fill: array<nat>,
                  slots: array<nat>)
    requires i < |ids| == slots.Length && n == i + 1 && |starts| == experts + 1 && fill.Length == experts
    requires fill != slots
    requires forall e :: 0 <= e <= experts ==> starts[e] == Start(ids, |ids|, e)
    requires Counted(ids, i, starts, fill[..]) && AllFilled(ids, i, experts, starts, slots[..])
    modifies fill, slots
    ensures Counted(ids, n, starts, fill[..]) && AllFilled(ids, n, experts, starts, slots[..])
  {
    PairsNext(ids, i, n);
    var e := ids[i];
    if 0 <= e < experts {
      SlotFree(ids, i, experts, e);
      ghost var before := slots[..];
      slots[fill[e]] := i;
      FillAll(ids, i, n, experts, starts, before, slots[..], e);
      fill[e] := fill[e] + 1;
    } else {
      forall d | 0 <= d < experts
        ensures Filled(ids, n, starts, slots[..], d)
      {
        assert Filled(ids, i, starts, slots[..], d) && Pairs(ids, n, d) == Pairs(ids, i, d);
      }
    }
  }

  /** After i pairs the cursors are past each expert's pairs below i. */
  ghost predicate Counted(ids: seq<int>, i: nat, starts: seq<nat>, fill: seq<nat>)
    requires i <= |ids| && |fill| <= |starts|
  {
    forall e :: 0 <= e < |fill| ==> fill[e] == starts[e] + |Pairs(ids, i, e)|
  }

  /** After i pairs e's first slots hold its pairs below i. */
  predicate Filled(ids: seq<int>, i: nat, starts: seq<nat>, slots: seq<nat>, e: nat)
    requires i <= |ids| && e < |starts|
  {
    var end := starts[e] + |Pairs(ids, i, e)|;
    end <= |slots| && slots[starts[e]..end] == Pairs(ids, i, e)
  }

  ghost predicate AllFilled(ids: seq<int>, i: nat, experts: nat, starts: seq<nat>, slots: seq<nat>)
    requires i <= |ids| && |starts| == experts + 1
  {
    forall e :: 0 <= e < experts ==> Filled(ids, i, starts, slots, e)
  }

  lemma PairsNext(ids: seq<int>, i: nat, n: nat)
    requires i < |ids| && n == i + 1
    ensures forall d: int :: Pairs(ids, n, d) == if d == ids[i] then Pairs(ids, i, d) + [i] else Pairs(ids, i, d)
  {
  }

  lemma SlotFree(ids: seq<int>, i: nat, experts: nat, e: nat)
    requires i < |ids| && ids[i] == e < experts
    ensures Start(ids, |ids|, e) + |Pairs(ids, i, e)| < Start(ids, |ids|, e + 1) <= |ids|
  {
    PairsPrefix(ids, i + 1, |ids|, e);
    StartCounts(ids, |ids|, e + 1);
  }

  /** Writing pair i to its slot disturbs no other expert's slots. */
  lemma FillOne(ids: seq<int>, i: nat, starts: seq<nat>, slots: seq<nat>, e: nat, d: nat)
    requires i < |ids| && ids[i] == e < |starts| && d < |starts|
    requires starts[e] == Start(ids, |ids|, e) && starts[d] == Start(ids, |ids|, d)
    requires starts[e] + |Pairs(ids, i, e)| < |slots| && starts[e] + |Pairs(ids, i, e)| < Start(ids, |ids|, e + 1)
    requires Filled(ids, i, starts, slots, e) && Filled(ids, i, starts, slots, d)
    ensures Filled(ids, i + 1, starts, slots[starts[e] + |Pairs(ids, i, e)| := i], d)
  {
    var at := starts[e] + |Pairs(ids, i, e)|;
    var slots' := slots[at := i];
    if d == e {
      assert slots'[starts[e]..at + 1] == slots[starts[e]..at] + [i];
    } else {
      PairsPrefix(ids, i, |ids|, d);
      if d < e { StartMonotone(ids, |ids|, d, e); } else { StartMonotone(ids, |ids|, e + 1, d); }
      var end := starts[d] + |Pairs(ids, i, d)|;
      assert slots'[starts[d]..end] == slots[starts[d]..end];
    }
  }

  lemma FillAll(ids: seq<int>, i: nat, n: nat, experts: nat, starts: seq<nat>, slots: seq<nat>, slots': seq<nat>,
                e: nat)
    requires i < |ids| == |slots| && n == i + 1 && |starts| == experts + 1 && ids[i] == e < experts
    requires forall d :: 0 <= d <= experts ==> starts[d] == Start(ids, |ids|, d)
    requires starts[e] + |Pairs(ids, i, e)| < |slots| && slots' == slots[starts[e] + |Pairs(ids, i, e)| := i]
    requires AllFilled(ids, i, experts, starts, slots)
    ensures AllFilled(ids, n, experts, starts, slots')
  {
    SlotFree(ids, i, experts, e);
    forall d | 0 <= d < experts
      ensures Filled(ids, n, starts, slots', d)
    {
      FillOne(ids, i, starts, slots, e, d);
    }
  }

  lemma FilledGroups(ids: seq<int>, experts: nat, starts: seq<nat>, slots: seq<nat>)
    requires |ids| == |slots| && |starts| == experts + 1
    requires forall e :: 0 <= e <= experts ==> starts[e] == Start(ids, |ids|, e)
    requires AllFilled(ids, |ids|, experts, starts, slots)
    ensures Grouped(ids, experts, starts, slots)
  {
    forall e: nat | e < experts
      ensures GroupOf(ids, starts, slots, e)
    {
      assert Filled(ids, |ids|, starts, slots, e);
      assert starts[e + 1] == Start(ids, |ids|, e + 1);
    }
  }

  predicate HasWork(starts: seq<nat>, e: nat) { e + 1 < |starts| && starts[e + 1] > starts[e] }

  /** The experts that have work, in ascending order. */
  method ActiveExperts(experts: nat, starts: seq<nat>) returns (active: seq<nat>)
    requires |starts| == experts + 1
    ensures forall e: nat :: e in active <==> HasWork(starts, e)
    ensures forall a, b :: 0 <= a < b < |active| ==> active[a] < active[b]
  {
    active := [];
    for e := 0 to experts
      invariant forall d: nat :: d in active <==> d < e && HasWork(starts, d)
      invariant forall a, b :: 0 <= a < b < |active| ==> active[a] < active[b]
    {
      assert forall a :: 0 <= a < |active| ==> active[a] in active;
      if starts[e + 1] > starts[e] {
        active := active + [e];
      }
    }
  }
}
