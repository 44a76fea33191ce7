/** Whole runs: a cut stack computes what the uncut one computes, exactly when no cut falls on an engram layer. */
module ShadowTheorem {
  import opened Basics
  import opened ShadowPlan
  import opened ShadowModel
  import opened ShadowForward

  /** Every rank's state agrees with the uncut state. */
  ghost predicate AllAgree(m: Model, ranges: seq<Range>, u: State, states: seq<State>) {
    |states| == |ranges| && forall r :: 0 <= r < |ranges| ==> Agrees(m, MakePlan(m.cfg, ranges, r), u, states[r])
  }

  ghost predicate Cut(m: Model, ranges: seq<Range>) { m.cfg.Valid() && Legal(ranges, m.layers) }

  ghost predicate StepKept(m: Model, ranges: seq<Range>, step: Step) {
    forall r :: 0 <= r < |ranges| ==> EngramKept(m, ranges[r].0, step)
  }

  lemma PlanFacts(cfg: Config, ranges: seq<Range>, layers: nat, r: nat)
    requires cfg.Valid() && Legal(ranges, layers) && r < |ranges|
    ensures var p := MakePlan(cfg, ranges, r);
            && GoodPlan(cfg, p) && p.end <= layers && p.needs.Keys <= p.recvSet
            && (forall s :: s in p.shipSet ==> s < p.end)
            && (forall s :: s in p.shipSet && s < p.start ==> s in p.recvSet)
            && (p.shipCand ==> cfg.HasCand() && cfg.candSource < p.end)
            && (r == 0 ==> p.start == 0 && p.needs == map[]) && (r > 0 ==> p.start > 0)
    ensures r + 1 < |ranges| ==> Next(MakePlan(cfg, ranges, r), MakePlan(cfg, ranges, r + 1))
    ensures r + 1 == |ranges| ==> MakePlan(cfg, ranges, r).end == layers
  {
    hide Needs, NeedsFrom;
    PlansAreGood(cfg, ranges, layers, r);
    if r + 1 < |ranges| {
      ShipMatchesRecv(cfg, ranges, layers, r);
      LegalOrder(ranges, layers, r, |ranges| - 1);
    }
    if r > 0 { LegalOrder(ranges, layers, 0, r); }
  }

  /** Every rank's wire carries the uncut stack's stream, inputs and candidates. */
  lemma {:induction false} WiresGood(m: Model, ranges: seq<Range>, u: State, states: seq<State>, step: Step, r: nat)
    requires Cut(m, ranges) && AllAgree(m, ranges, u, states) && StepKept(m, ranges, step) && r < |ranges|
    ensures InputGood(m, MakePlan(m.cfg, ranges, r), u, step, m.WireInto(ranges, states, step, r))
    decreases r
  {
    hide MakePlan, InputGood, Agrees, EngramKept, WireGood, GoodPlan, m.RankWire;
    PlanFacts(m.cfg, ranges, m.layers, r);
    if r == 0 {
      FirstGood(m, MakePlan(m.cfg, ranges, 0), u, step);
    } else {
      WiresGood(m, ranges, u, states, step, r - 1);
      PlanFacts(m.cfg, ranges, m.layers, r - 1);
      var p, q := MakePlan(m.cfg, ranges, r - 1), MakePlan(m.cfg, ranges, r);
      WireServes(m, p, q, u, states[r - 1], m.WireInto(ranges, states, step, r - 1), step);
      LaterGood(m, q, u, step, m.RankWire(p, states[r - 1], m.WireInto(ranges, states, step, r - 1), step));
    }
  }

  lemma FirstGood(m: Model, p: Plan, u: State, step: Step)
    requires p.start == 0 && p.needs == map[]
    ensures InputGood(m, p, u, step, None)
  {
  }

  lemma LaterGood(m: Model, p: Plan, u: State, step: Step, w: Wire)
    requires p.start > 0 && WireGood(m, p, u, step, w)
    ensures InputGood(m, p, u, step, Some(w))
  {
  }

  /** One step of all ranks is one step of the uncut stack. */
  lemma StepPreserves(m: Model, ranges: seq<Range>, u: State, states: seq<State>, step: Step)
    requires Cut(m, ranges) && AllAgree(m, ranges, u, states) && StepKept(m, ranges, step)
    ensures AllAgree(m, ranges, m.StateAt(0, m.layers, u, Start(m, step), step), m.StepStates(ranges, states, step))
    ensures var last := m.CarryAt(0, m.layers, u, Start(m, step), step);
            m.StepResult(ranges, states, step) == (m.Collapse(last), m.PreOf(last))
  {
    hide MakePlan, InputGood, Agrees, EngramKept, GoodPlan, m.RankWire, m.RankState;
    hide m.StateAt, m.CarryAt, m.Collapse, m.PreOf;
    forall r: nat | r < |ranges|
      ensures Agrees(m, MakePlan(m.cfg, ranges, r), m.StateAt(0, m.layers, u, Start(m, step), step),
                     m.StepStates(ranges, states, step)[r])
    {
      WiresGood(m, ranges, u, states, step, r);
      PlanFacts(m.cfg, ranges, m.layers, r);
      RankSteps(m, MakePlan(m.cfg, ranges, r), u, states[r], m.WireInto(ranges, states, step, r), step);
    }
    var r := |ranges| - 1;
    WiresGood(m, ranges, u, states, step, r);
    PlanFacts(m.cfg, ranges, m.layers, r);
    RankSteps(m, MakePlan(m.cfg, ranges, r), u, states[r], m.WireInto(ranges, states, step, r), step);
  }

  /** The uncut model is the same code on a single rank that holds every layer. */
  function Whole(layers: nat): seq<Range> { [(0, layers)] }

  lemma WholeIsUncut(m: Model, u: State, step: Step)
    requires m.layers > 0
    ensures Legal(Whole(m.layers), m.layers)
    ensures m.StepStates(Whole(m.layers), [u], step) == [m.StateAt(0, m.layers, u, Start(m, step), step)]
    ensures var last := m.CarryAt(0, m.layers, u, Start(m, step), step);
            m.StepResult(Whole(m.layers), [u], step) == (m.Collapse(last), m.PreOf(last))
  {
    hide m.StateAt, m.CarryAt, m.Collapse, m.PreOf, NeedsFrom;
    EndsAreQuiet(m.cfg, Whole(m.layers), m.layers);
    assert m.WireInto(Whole(m.layers), [u], step, 0) == None;
  }

  /** Over any sequence of steps and any legal partition, the ranks' composed forward gives what the uncut model
      gives, and every shadowed source's cache equals its owner's, provided the injections are kept. */
  lemma {:induction false} CutPreserves(m: Model, ranges: seq<Range>, u: State, states: seq<State>, steps: seq<Step>)
    requires Cut(m, ranges) && AllAgree(m, ranges, u, states)
    requires forall step :: step in steps ==> StepKept(m, ranges, step)
    ensures m.Run(ranges, states, steps) == m.Run(Whole(m.layers), [u], steps)
    ensures AllAgree(m, ranges, m.FinalStates(Whole(m.layers), [u], steps)[0], m.FinalStates(ranges, states, steps))
    decreases |steps|
  {
    hide AllAgree, StepKept, m.StateAt, m.CarryAt, m.StepStates, m.StepResult, m.Collapse, m.PreOf;
    StackNonEmpty(m, ranges);
    if |steps| > 0 {
      var step := steps[0];
      assert StepKept(m, ranges, step);
      SameCount(m, ranges, u, states);
      StepPreserves(m, ranges, u, states, step);
      WholeIsUncut(m, u, step);
      CutPreserves(m, ranges, m.StateAt(0, m.layers, u, Start(m, step), step),
                   m.StepStates(ranges, states, step), steps[1..]);
    } else {
      SameCount(m, ranges, u, states);
    }
  }

  lemma SameCount(m: Model, ranges: seq<Range>, u: State, states: seq<State>)
    requires AllAgree(m, ranges, u, states)
    ensures |states| == |ranges|
  {
  }

  lemma StackNonEmpty(m: Model, ranges: seq<Range>)
    requires Cut(m, ranges)
    ensures m.layers > 0 && |ranges| > 0
  {
  }

  /** Ranks that start from the same blank memory agree. */
  lemma BlankAgrees(m: Model, ranges: seq<Range>, u: State)
    requires u.Shaped(m.layers, m.rows)
    ensures AllAgree(m, ranges, u, seq(|ranges|, _ => u))
  {
  }

  // ----- cuts on engram layers

  /** A stack that only counts injections: every kernel is silent, each injection adds one. */
  function Counter(hasEngram: nat -> bool): Net {
    Net((_: Step) => 0, (h: int) => h,
        (_: nat, _: int, _: int) => Pre(0, 0, 0), (_: nat, _: int, _: int) => Pre(0, 0, 0),
        (_: nat, _: int, _: int) => Pre(0, 0, 0),
        (_: int, residual: int, _: int) => residual, (_: nat, _: int, _: Step) => 0,
        hasEngram, (_: nat, residual: int, _: Step) => residual + 1,
        (_: nat, _: int, _: int, _: Step) => 0, (_: nat, _: int, _: int, _: Step) => 0,
        (_: nat, _: Step) => false, (_: nat, _: Step, _: nat) => 0,
        (_: nat, _: int, _: int, _: Step, _: nat) => 0, (_: nat, _: int, _: int, _: seq<int>, _: Step, _: nat) => 0,
        (_: nat, _: int, _: int, _: Step, _: nat) => 0,
        (_: nat, _: int, _: int, _: int, _: seq<int>, _: Step) => 0, (_: nat, _: int, _: int, _: Step) => 0)
  }

  /** Engram layers strictly between a and l. */
  function Hits(hasEngram: nat -> bool, a: nat, l: nat): nat {
    if l <= a + 1 then 0 else Hits(hasEngram, a, l - 1) + One(hasEngram(l - 1))
  }

  lemma {:induction false} HitsSplit(e: nat -> bool, b: nat, l: nat)
    requires 0 < b <= l && b < l
    ensures Hits(e, 0, l) == Hits(e, 0, b) + One(e(b)) + Hits(e, b, l)
    decreases l
  {
    if l > b + 1 { HitsSplit(e, b, l - 1); }
  }

  ghost predicate Counting(m: Model) { m.net == Counter(m.net.hasEngram) }

  function ResidualOf(c: Carry): int {
    match c
    case Embedded(h) => h
    case Received(h, _) => h
    case Mid(_, residual, _, _) => residual
  }

  lemma CountLayer(m: Model, l: nat, c: Carry, st: State, step: Step)
    requires Counting(m) && step.hashed
    ensures var next := m.LayerCarry(l, m.Feed(l, c, step), st, step);
            next.Mid? && ResidualOf(next) == ResidualOf(c) + One(c.Mid? && m.net.hasEngram(l))
            && m.Collapse(next) == ResidualOf(next)
  {
    hide m.Attend;
  }

  /** Running layers a..l from a received or embedded stream counts the engram layers after the first. */
  lemma {:induction false} CountLayers(m: Model, a: nat, l: nat, st: State, c: Carry, step: Step)
    requires Counting(m) && step.hashed && !c.Mid? && a < l
    ensures m.CarryAt(a, l, st, c, step).Mid?
    ensures m.Collapse(m.CarryAt(a, l, st, c, step)) == ResidualOf(m.CarryAt(a, l, st, c, step)) ==
            ResidualOf(c) + Hits(m.net.hasEngram, a, l)
    decreases l
  {
    hide m.LayerCarry, m.Feed, m.LayerState, m.StateAt, m.Collapse, m.CarryAt, ResidualOf, Counting;
    AtNext(m, a, a, st, c, step);
    AtNext(m, a, l - 1, st, c, step);
    if l - 1 > a { CountLayers(m, a, l - 1, st, c, step); }
    CountLayer(m, l - 1, m.CarryAt(a, l - 1, st, c, step), m.StateAt(a, l, st, c, step), step);
  }

  /** Injections lost at the starts of the ranks from 1 up to r. */
  function Lost(e: nat -> bool, ranges: seq<Range>, r: nat): nat
    requires r <= |ranges|
  {
    if r <= 1 then 0 else Lost(e, ranges, r - 1) + One(e(ranges[r - 1].0))
  }

  lemma CountRank(m: Model, p: Plan, st: State, win: Option<Wire>, step: Step)
    requires Counting(m) && step.hashed && p.start < p.end
    ensures m.RankWire(p, st, win, step).h
            == (if win.None? then 0 else win.value.h) + Hits(m.net.hasEngram, p.start, p.end)
  {
    hide m.StateAt, m.CarryAt, m.InputAt, m.Prepared, m.Collapse;
    CountLayers(m, p.start, p.end, m.Prepared(p, st, win, step), m.FirstCarry(win, step), step);
  }

  /** The stream after rank r - 1, plus what the cuts lost, is the uncut count. */
  lemma {:induction false} CountWires(m: Model, ranges: seq<Range>, states: seq<State>, step: Step, r: nat)
    requires Counting(m) && step.hashed && Legal(ranges, m.layers) && 0 < r <= |ranges| == |states|
    ensures m.WireInto(ranges, states, step, r).Some?
    ensures m.WireInto(ranges, states, step, r).value.h + Lost(m.net.hasEngram, ranges, r) ==
            Hits(m.net.hasEngram, 0, ranges[r - 1].1)
    decreases r
  {
    hide m.RankWire, MakePlan, Counting;
    CountRank(m, MakePlan(m.cfg, ranges, r - 1), states[r - 1], m.WireInto(ranges, states, step, r - 1), step);
    if r > 1 {
      CountWires(m, ranges, states, step, r - 1);
      LegalOrder(ranges, m.layers, 0, r - 1);
      assert ranges[r - 1].0 == ranges[r - 2].1;
      HitsSplit(m.net.hasEngram, ranges[r - 1].0, ranges[r - 1].1);
    }
  }

  lemma {:induction false} LostSome(e: nat -> bool, ranges: seq<Range>, r: nat, q: nat)
    requires 0 < q < r <= |ranges| && e(ranges[q].0)
    ensures Lost(e, ranges, r) > 0
    decreases r
  {
    if q + 1 < r { LostSome(e, ranges, r - 1, q); }
  }

  /** A cut on an engram layer changes the result of the counting stack in a single step. */
  lemma CutBreaks(cfg: Config, layers: nat, rows: nat, ranges: seq<Range>, e: nat -> bool, q: nat, states: seq<State>,
                  u: State)
    requires Legal(ranges, layers) && 0 < q < |ranges| == |states| && e(ranges[q].0)
    ensures var m, step := Model(Counter(e), cfg, layers, rows), Step(1, 0, true);
            m.StepResult(ranges, states, step) != m.StepResult(Whole(layers), [u], step)
  {
    var m, step := Model(Counter(e), cfg, layers, rows), Step(1, 0, true);
    CounterKeeps(e);
    hide Counter, Hits, Lost, m.WireInto, Counting;
    StackEnds(ranges, layers);
    hide Legal;
    CountWires(m, ranges, states, step, |ranges|);
    CountWires(m, Whole(layers), [u], step, 1);
    LostSome(e, ranges, |ranges|, q);
    NoneLost(e, layers);
  }

  lemma NoneLost(e: nat -> bool, layers: nat)
    ensures Lost(e, Whole(layers), 1) == 0
  {
  }

  lemma CounterKeeps(e: nat -> bool)
    ensures Counter(e).hasEngram == e
    ensures forall cfg: Config, layers: nat, rows: nat :: Counting(Model(Counter(e), cfg, layers, rows))
  {
  }

  lemma StackEnds(ranges: seq<Range>, layers: nat)
    requires Legal(ranges, layers)
    ensures Legal(Whole(layers), layers)
  {
    if |ranges| > 1 { LegalOrder(ranges, layers, 0, |ranges| - 1); }
  }

  /** Cutting here is sound: whatever the kernels, memories that agree and steps, the results are the uncut ones. */
  ghost predicate SoundCut(cfg: Config, layers: nat, rows: nat, ranges: seq<Range>, e: nat -> bool) {
    forall net: Net, u: State, states: seq<State>, steps: seq<Step> ::
      SameRun(Model(net, cfg, layers, rows), ranges, e, u, states, steps)
  }

  ghost predicate SameRun(m: Model, ranges: seq<Range>, e: nat -> bool, u: State, states: seq<State>,
                          steps: seq<Step>) {
    m.net.hasEngram == e && |ranges| > 0 && AllAgree(m, ranges, u, states) ==>
      m.Run(ranges, states, steps) == m.Run(Whole(m.layers), [u], steps)
  }

  /** A legal partition is sound if and only if no rank after the first starts on an engram layer. */
  lemma CutExact(cfg: Config, layers: nat, rows: nat, ranges: seq<Range>, e: nat -> bool)
    requires cfg.Valid() && Legal(ranges, layers)
    ensures SoundCut(cfg, layers, rows, ranges, e) <==> forall r :: 0 < r < |ranges| ==> !e(ranges[r].0)
  {
    if forall r :: 0 < r < |ranges| ==> !e(ranges[r].0) {
      forall net: Net, u: State, states: seq<State>, steps: seq<Step>
        ensures SameRun(Model(net, cfg, layers, rows), ranges, e, u, states, steps)
      {
        SafeRun(Model(net, cfg, layers, rows), ranges, e, u, states, steps);
      }
    } else {
      var q: nat :| 0 < q < |ranges| && e(ranges[q].0);
      UnsafeRun(cfg, layers, rows, ranges, e, q);
    }
  }

  lemma SafeRun(m: Model, ranges: seq<Range>, e: nat -> bool, u: State, states: seq<State>, steps: seq<Step>)
    requires Cut(m, ranges) && forall r :: 0 < r < |ranges| ==> !e(ranges[r].0)
    ensures SameRun(m, ranges, e, u, states, steps)
  {
    hide AllAgree;
    if m.net.hasEngram == e && AllAgree(m, ranges, u, states) {
      CutPreserves(m, ranges, u, states, steps);
    }
  }

  /** Fresh memory. */
  function Blank(layers: nat, rows: nat): (u: State)
    ensures u.Shaped(layers, rows)
  {
    State(seq(layers, _ => 0), seq(layers, _ => 0), seq(rows, _ => 0), seq(rows, _ => 0))
  }

  lemma UnsafeRun(cfg: Config, layers: nat, rows: nat, ranges: seq<Range>, e: nat -> bool, q: nat)
    requires Legal(ranges, layers) && 0 < q < |ranges| && e(ranges[q].0)
    ensures !SoundCut(cfg, layers, rows, ranges, e)
  {
    hide Blank, Counter, Legal, SameRun;
    var u := Blank(layers, rows);
    CounterKeeps(e);
    CutBreaks(cfg, layers, rows, ranges, e, q, seq(|ranges|, _ => u), u);
    Differs(Model(Counter(e), cfg, layers, rows), ranges, e, u, Step(1, 0, true));
    assert !SameRun(Model(Counter(e), cfg, layers, rows), ranges, e, u, seq(|ranges|, _ => u), [Step(1, 0, true)]);
  }

  lemma Differs(m: Model, ranges: seq<Range>, e: nat -> bool, u: State, step: Step)
    requires |ranges| > 0 && m.net.hasEngram == e && u.Shaped(m.layers, m.rows)
    requires m.StepResult(ranges, seq(|ranges|, _ => u), step) != m.StepResult(Whole(m.layers), [u], step)
    ensures !SameRun(m, ranges, e, u, seq(|ranges|, _ => u), [step])
  {
    hide m.StepResult, m.Run, AllAgree, Whole;
    BlankAgrees(m, ranges, u);
    OneStep(m, ranges, u, seq(|ranges|, _ => u), step);
  }

  lemma OneStep(m: Model, ranges: seq<Range>, u: State, states: seq<State>, step: Step)
    requires |ranges| == |states| > 0 && m.StepResult(ranges, states, step) != m.StepResult(Whole(m.layers), [u], step)
    ensures m.Run(ranges, states, [step]) != m.Run(Whole(m.layers), [u], [step])
  {
    hide m.StepResult, m.StepStates;
    assert m.Run(ranges, states, [step])[0] == m.StepResult(ranges, states, step);
    assert m.Run(Whole(m.layers), [u], [step])[0] == m.StepResult(Whole(m.layers), [u], step);
  }
}
