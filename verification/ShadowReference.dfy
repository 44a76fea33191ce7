/** What the uncut stack computes, layer by layer in terms of the kernels alone: no threaded state and no shared
    buffers. */
module ShadowReference {
  import opened ShadowPlan
  import opened ShadowModel
  import opened ShadowForward
  import opened ShadowTheorem

  /** A sublayer's residual stream, its mix coefficients, its value and the pre-mix handed on. */
  datatype Sub = Sub(residual: int, mix: int, x: int, pre: int)

  ghost predicate Fine(m: Model, u: State) { m.cfg.Valid() && u.Shaped(m.layers, m.rows) }

  /** What layer l's attention gets. The first layer mixes the expanded embedding; any other closes the previous
      sublayer, injects its engram if it has one and the step has hashes, and mixes with the pre-mix carried in. */
  ghost function AttnIn(m: Model, l: nat, u: State, step: Step): Sub
    requires Fine(m, u) && l < m.layers
    decreases l, 0
  {
    if l == 0 then
      var stream := m.net.expand(m.net.embed(step));
      var p := m.net.preFirst(0, stream, m.net.embed(step));
      Sub(stream, p.mix, p.x, p.pre)
    else
      var f := FfnOut(m, l - 1, u, step);
      var closed := m.net.post(f.x, f.residual, f.mix);
      var stream := if m.net.hasEngram(l) && step.hashed then m.net.engram(l, closed, step) else closed;
      var p := m.net.preAttn(l, stream, f.pre);
      Sub(stream, p.mix, p.x, p.pre)
  }

  /** A kv source's cache with this step's latents of its own attention input. */
  ghost function Keys(m: Model, k: nat, u: State, step: Step): int
    requires Fine(m, u) && k < m.layers
    decreases k, 1
  {
    m.net.compress(k, u.kv[k], AttnIn(m, k, u, step).x, step)
  }

  /** Layer l is compressed, so its kv source and its index source are at or below it. */
  lemma SourcesBelow(m: Model, l: nat)
    requires m.cfg.Valid() && m.cfg.Compressed(l)
    ensures 0 <= m.cfg.KvSrc(l) <= m.cfg.IdxSrc(l) <= l
    ensures m.cfg.KvSrc(l) in m.cfg.kvSources && m.cfg.IdxSrc(l) in m.cfg.idxSources
    ensures m.cfg.Compressed(m.cfg.IdxSrc(l))
  {
    KvBelowIdx(m.cfg, l);
  }

  /** The candidate rows of this step: the blocks the candidate source finds, unless its context is short. */
  ghost function CandRows(m: Model, u: State, step: Step): seq<int>
    requires Fine(m, u) && 0 <= m.cfg.candSource < m.layers
    decreases m.cfg.candSource, 2
  {
    var c := m.cfg.candSource;
    if c in m.cfg.idxSources && !m.net.isShort(c, step) then
      SourcesBelow(m, c);
      seq(Rows(m, step), j requires 0 <= j < Rows(m, step) =>
        m.net.blocks(c, AttnIn(m, c, u, step).x, Keys(m, m.cfg.KvSrc(c), u, step), step, j))
    else Take(u.cand, step.n)
  }

  /** The rows of a step that the shared buffers hold. */
  function Rows(m: Model, step: Step): (n: nat)
    ensures n <= step.n && n <= m.rows
  {
    if step.n <= m.rows then step.n else m.rows
  }

  /** The top-k rows that index source i finds: everything in a short context; otherwise its own selection from its kv
      source's keys, restricted to the candidate rows when the candidate source lies before it. */
  ghost function Chosen(m: Model, i: nat, u: State, step: Step): seq<int>
    requires Fine(m, u) && i < m.layers && m.cfg.Compressed(i)
    decreases i, 3
  {
    SourcesBelow(m, i);
    var x, key := AttnIn(m, i, u, step).x, Keys(m, m.cfg.KvSrc(i), u, step);
    if m.net.isShort(i, step) then
      seq(Rows(m, step), j requires 0 <= j < Rows(m, step) => m.net.fill(i, step, j))
    else if 0 <= m.cfg.candSource < i && m.cfg.candBlocks > 0 then
      var cand := CandRows(m, u, step);
      seq(Rows(m, step), j requires 0 <= j < Rows(m, step) => m.net.selectMasked(i, x, key, cand, step, j))
    else
      seq(Rows(m, step), j requires 0 <= j < Rows(m, step) => m.net.select(i, x, key, step, j))
  }

  /** Layer l's attention: its own window, and on a compressed layer its kv source's cache at its index source's
      rows. */
  ghost function AttnOut(m: Model, l: nat, u: State, step: Step): int
    requires Fine(m, u) && l < m.layers
    decreases l, 4
  {
    var x := AttnIn(m, l, u, step).x;
    var window := m.net.swa(l, u.swa[l], x, step);
    if l < |m.cfg.ratios| && m.cfg.ratios[l] != 0 then
      SourcesBelow(m, l);
      m.net.attend(l, x, window, Keys(m, m.cfg.KvSrc(l), u, step), Chosen(m, m.cfg.IdxSrc(l), u, step), step)
    else m.net.attendWindow(l, x, window, step)
  }

  /** Layer l's feed-forward: it closes the attention, mixes with the attention's pre-mix, and hands on its own. */
  ghost function FfnOut(m: Model, l: nat, u: State, step: Step): Sub
    requires Fine(m, u) && l < m.layers
    decreases l, 5
  {
    var a := AttnIn(m, l, u, step);
    var stream := m.net.post(AttnOut(m, l, u, step), a.residual, a.mix);
    var p := m.net.preFfn(l, stream, a.pre);
    Sub(stream, p.mix, m.net.ffn(l, p.x, step), p.pre)
  }

  // ----- the model computes it

  /** The uncut state and input of layer l in a step. */
  ghost function Before(m: Model, l: nat, u: State, step: Step): State { m.StateAt(0, l, u, Start(m, step), step) }

  ghost predicate InputIs(m: Model, l: nat, u: State, step: Step)
    requires Fine(m, u) && l < m.layers
  {
    var a := AttnIn(m, l, u, step);
    m.Feed(l, m.CarryAt(0, l, u, Start(m, step), step), step) == Fed(a.residual, a.mix, a.x, a.pre)
  }

  /** Caches and windows after layer l, given the inputs up to it. */
  lemma CacheIs(m: Model, k: nat, l: nat, u: State, step: Step)
    requires Fine(m, u) && k < l <= m.layers && InputIs(m, k, u, step)
    ensures Before(m, l, u, step).Shaped(m.layers, m.rows)
    ensures k in m.cfg.kvSources ==> Before(m, l, u, step).Cache(k) == Keys(m, k, u, step)
    ensures Before(m, l, u, step).swa[k] == m.net.swa(k, u.swa[k], AttnIn(m, k, u, step).x, step)
  {
    hide m.StateAt, m.InputAt, m.CarryAt, m.Feed, AttnIn;
    CachesAt(m, l, u, Start(m, step), step);
    AtNext(m, 0, k, u, Start(m, step), step);
  }

  /** The state an index source's indexer runs on. */
  lemma IndexerRuns(m: Model, i: nat, u: State, step: Step)
    requires Fine(m, u) && i < m.layers && i in m.cfg.idxSources && InputIs(m, i, u, step)
    requires m.cfg.KvSrc(i) >= 0 && InputIs(m, m.cfg.KvSrc(i), u, step)
    ensures var x, key := AttnIn(m, i, u, step).x, Keys(m, m.cfg.KvSrc(i), u, step);
            var before, after := Before(m, i, u, step), Before(m, i + 1, u, step);
            && after.Shaped(m.layers, m.rows) && before.Shaped(m.layers, m.rows)
            && after.topk == Put(before.topk, step.n,
                                 (row: nat) => m.TopkRow(i, x, key, Take(before.cand, step.n), step, row))
            && (i == m.cfg.candSource && m.cfg.HasCand() ==>
                  after.cand == if m.net.isShort(i, step) then before.cand
                                else Put(before.cand, step.n, (row: nat) => m.net.blocks(i, x, key, step, row)))
  {
    hide m.StateAt, m.InputAt, m.CarryAt, m.Feed, AttnIn, m.TopkRow;
    var c := Start(m, step);
    CachesAt(m, i, u, c, step);
    CacheIs(m, m.cfg.KvSrc(i), i + 1, u, step);
    AtNext(m, 0, i, u, c, step);
    var x, before := m.InputAt(0, i, u, c, step), m.StateAt(0, i, u, c, step);
    PrepareShape(m, i, x, before, step);
  }

  lemma TakePut(m: Model, step: Step, buf: seq<int>, row: nat -> int)
    requires |buf| == m.rows
    ensures Take(Put(buf, step.n, row), step.n) == seq(Rows(m, step), j requires 0 <= j < Rows(m, step) => row(j))
  {
  }

  /** Before a layer behind the candidate source the candidate buffer holds the rows published in this step. */
  lemma CandsAre(m: Model, l: nat, u: State, step: Step)
    requires Fine(m, u) && l <= m.layers && m.cfg.HasCand() && m.cfg.candSource < l
    requires var c := m.cfg.candSource; InputIs(m, c, u, step) && (c in m.cfg.idxSources ==>
               m.cfg.KvSrc(c) >= 0 && InputIs(m, m.cfg.KvSrc(c), u, step))
    ensures Before(m, l, u, step).Shaped(m.layers, m.rows)
    ensures Take(Before(m, l, u, step).cand, step.n) == CandRows(m, u, step)
  {
    var c, start := m.cfg.candSource, Start(m, step);
    hide m.StateAt, m.InputAt, m.CarryAt, m.Feed, m.LayerState, AttnIn, Keys, Put, Take;
    CachesAt(m, l, u, start, step);
    CachesAt(m, c, u, start, step);
    RowsAt(m, 0, c, u, start, step);
    AtNext(m, 0, 0, u, start, step);
    RowsAt(m, c + 1, l, u, start, step);
    if c in m.cfg.idxSources {
      IndexerRuns(m, c, u, step);
      var x, key := AttnIn(m, c, u, step).x, Keys(m, m.cfg.KvSrc(c), u, step);
      TakePut(m, step, Before(m, c, u, step).cand, (row: nat) => m.net.blocks(c, x, key, step, row));
    } else {
      AtNext(m, 0, c, u, start, step);
      LayerWrites(m, c, m.InputAt(0, c, u, start, step), m.StateAt(0, c, u, start, step), step);
    }
  }

  /** The rows an index source leaves in the top-k buffer. */
  lemma ChosenBy(m: Model, i: nat, u: State, step: Step)
    requires Fine(m, u) && i < m.layers && i in m.cfg.idxSources
    requires forall k: nat :: k <= i ==> InputIs(m, k, u, step)
    ensures Take(Before(m, i + 1, u, step).topk, step.n) == Chosen(m, i, u, step)
  {
    hide InputIs, Put, Take, CandRows, AttnIn, Keys;
    SourcesBelow(m, i);
    IndexerRuns(m, i, u, step);
    var x, key := AttnIn(m, i, u, step).x, Keys(m, m.cfg.KvSrc(i), u, step);
    var cand := Take(Before(m, i, u, step).cand, step.n);
    if m.cfg.HasCand() && m.cfg.candSource < i {
      if m.cfg.candSource in m.cfg.idxSources { SourcesBelow(m, m.cfg.candSource); }
      CandsAre(m, i, u, step);
    }
    TakePut(m, step, Before(m, i, u, step).topk, (row: nat) => m.TopkRow(i, x, key, cand, step, row));
  }

  /** On a compressed layer the top-k buffer holds what its index source chose. */
  lemma TopkAt(m: Model, l: nat, u: State, step: Step)
    requires Fine(m, u) && l < m.layers && m.cfg.Compressed(l)
    requires forall k: nat :: k <= l ==> InputIs(m, k, u, step)
    ensures m.cfg.IdxSrc(l) >= 0 && m.cfg.Compressed(m.cfg.IdxSrc(l))
    ensures Take(Before(m, l + 1, u, step).topk, step.n) == Chosen(m, m.cfg.IdxSrc(l), u, step)
  {
    hide InputIs, Take, Chosen, m.StateAt;
    SourcesBelow(m, l);
    ChosenBy(m, m.cfg.IdxSrc(l), u, step);
    RowsAt(m, m.cfg.IdxSrc(l) + 1, l + 1, u, Start(m, step), step);
  }

  lemma AttendIs(m: Model, l: nat, u: State, step: Step)
    requires Fine(m, u) && l < m.layers && forall k: nat :: k <= l ==> InputIs(m, k, u, step)
    ensures m.Attend(l, AttnIn(m, l, u, step).x, Before(m, l + 1, u, step), step) == AttnOut(m, l, u, step)
  {
    hide InputIs, Take, Chosen, AttnIn, Keys, Before;
    CacheIs(m, l, l + 1, u, step);
    if m.cfg.Compressed(l) {
      SourcesBelow(m, l);
      CacheIs(m, m.cfg.KvSrc(l), l + 1, u, step);
      TopkAt(m, l, u, step);
    }
  }

  /** The carry after layer l is what the reference's feed-forward leaves. */
  lemma CarryIs(m: Model, l: nat, u: State, step: Step)
    requires Fine(m, u) && l < m.layers && forall k: nat :: k <= l ==> InputIs(m, k, u, step)
    ensures var f := FfnOut(m, l, u, step);
            m.CarryAt(0, l + 1, u, Start(m, step), step) == Mid(f.x, f.residual, f.mix, f.pre)
  {
    hide m.StateAt, m.CarryAt, m.InputAt, m.Feed, m.Attend, AttnIn, AttnOut;
    AttendIs(m, l, u, step);
    AtNext(m, 0, l, u, Start(m, step), step);
    assert InputIs(m, l, u, step);
  }

  /** Every layer's attention input is the reference's. */
  lemma {:induction false} InputsAre(m: Model, l: nat, u: State, step: Step)
    requires Fine(m, u) && l < m.layers
    ensures forall k: nat :: k <= l ==> InputIs(m, k, u, step)
    decreases l
  {
    if l == 0 {
      FirstInput(m, u, step);
    } else {
      InputsAre(m, l - 1, u, step);
      NextInput(m, l, u, step);
    }
  }

  lemma FirstInput(m: Model, u: State, step: Step)
    requires Fine(m, u) && 0 < m.layers
    ensures InputIs(m, 0, u, step)
  {
    AtNext(m, 0, 0, u, Start(m, step), step);
  }

  lemma NextInput(m: Model, l: nat, u: State, step: Step)
    requires Fine(m, u) && 0 < l < m.layers && forall k: nat :: k < l ==> InputIs(m, k, u, step)
    ensures InputIs(m, l, u, step)
  {
    hide InputIs;
    CarryIs(m, l - 1, u, step);
    FeedsOn(m, l, u, step, m.CarryAt(0, l, u, Start(m, step), step));
    InputFrom(m, l, u, step);
  }

  /** The next layer's input from the carry. */
  lemma FeedsOn(m: Model, l: nat, u: State, step: Step, c: Carry)
    requires Fine(m, u) && 0 < l < m.layers
    requires var f := FfnOut(m, l - 1, u, step); c == Mid(f.x, f.residual, f.mix, f.pre)
    ensures var a := AttnIn(m, l, u, step); m.Feed(l, c, step) == Fed(a.residual, a.mix, a.x, a.pre)
  {
    hide FfnOut;
  }

  lemma InputFrom(m: Model, l: nat, u: State, step: Step)
    requires Fine(m, u) && l < m.layers
    requires var a := AttnIn(m, l, u, step);
             m.Feed(l, m.CarryAt(0, l, u, Start(m, step), step), step) == Fed(a.residual, a.mix, a.x, a.pre)
    ensures InputIs(m, l, u, step)
  {
    hide m.CarryAt, m.Feed, AttnIn;
  }

  // ----- whole steps

  /** What a step of the uncut stack puts out. */
  ghost function Result(m: Model, u: State, step: Step): (int, int)
    requires Fine(m, u) && m.layers > 0
  {
    var f := FfnOut(m, m.layers - 1, u, step);
    (m.net.post(f.x, f.residual, f.mix), f.pre)
  }

  /** One step of a legal partition that keeps the injections puts out exactly what the kernels compose to: every
      layer's attention at its own window, its kv source's cache, and the rows its index source chose, masked by the
      candidates published in this step behind the candidate source. */
  lemma CutComputes(m: Model, ranges: seq<Range>, u: State, states: seq<State>, step: Step)
    requires Cut(m, ranges) && AllAgree(m, ranges, u, states) && StepKept(m, ranges, step)
    requires m.layers > 0 && u.Shaped(m.layers, m.rows)
    ensures m.StepResult(ranges, states, step) == Result(m, u, step)
  {
    hide AllAgree, StepKept, Cut, m.CarryAt, m.StateAt, m.StepResult, m.StepStates, m.Collapse, m.PreOf, Result;
    CutFine(m, ranges);
    StepPreserves(m, ranges, u, states, step);
    LastCarry(m, u, step);
  }

  lemma CutFine(m: Model, ranges: seq<Range>)
    requires Cut(m, ranges)
    ensures m.cfg.Valid()
  {
  }

  lemma LastCarry(m: Model, u: State, step: Step)
    requires Fine(m, u) && m.layers > 0
    ensures var last := m.CarryAt(0, m.layers, u, Start(m, step), step);
            (m.Collapse(last), m.PreOf(last)) == Result(m, u, step)
  {
    hide InputIs, m.CarryAt, FfnOut;
    InputsAre(m, m.layers - 1, u, step);
    CarryIs(m, m.layers - 1, u, step);
  }

  /** How a step moves the stack's memory: every kv source and every window takes this step's input of its own layer,
      the first candidate rows are those published, and nothing else that is ever read changes. */
  ghost predicate Evolves(m: Model, u: State, step: Step, u': State) {
    && Fine(m, u) && u'.Shaped(m.layers, m.rows)
    && (forall k: nat :: k < m.layers ==> CellEvolves(m, u, step, u', k))
    && u'.cand == NextCand(m, u, step)
  }

  ghost predicate CellEvolves(m: Model, u: State, step: Step, u': State, k: nat)
    requires Fine(m, u) && u'.Shaped(m.layers, m.rows) && k < m.layers
  {
    && u'.swa[k] == m.net.swa(k, u.swa[k], AttnIn(m, k, u, step).x, step)
    && u'.kv[k] == if k in m.cfg.kvSources then Keys(m, k, u, step) else u.kv[k]
  }

  ghost function NextCand(m: Model, u: State, step: Step): seq<int>
    requires Fine(m, u)
  {
    var c := m.cfg.candSource;
    if 0 <= c < m.layers && m.cfg.candBlocks > 0 && c in m.cfg.idxSources && !m.net.isShort(c, step) then
      SourcesBelow(m, c);
      var x, key := AttnIn(m, c, u, step).x, Keys(m, m.cfg.KvSrc(c), u, step);
      Put(u.cand, step.n, (row: nat) => m.net.blocks(c, x, key, step, row))
    else u.cand
  }

  /** A layer that is no kv source has no cache to change. */
  lemma {:induction false} OthersKept(m: Model, k: nat, l: nat, u: State, step: Step)
    requires Fine(m, u) && k < m.layers && k !in m.cfg.kvSources
    ensures Before(m, l, u, step).Shaped(m.layers, m.rows) && Before(m, l, u, step).kv[k] == u.kv[k]
    decreases l
  {
    hide m.StateAt, m.InputAt, m.CarryAt, m.LayerState;
    CachesAt(m, l, u, Start(m, step), step);
    if l > 0 {
      OthersKept(m, k, l - 1, u, step);
      AtNext(m, 0, l - 1, u, Start(m, step), step);
      LayerWrites(m, l - 1, m.InputAt(0, l - 1, u, Start(m, step), step), Before(m, l - 1, u, step), step);
    } else {
      AtNext(m, 0, 0, u, Start(m, step), step);
    }
  }

  lemma CellIs(m: Model, k: nat, u: State, step: Step)
    requires Fine(m, u) && k < m.layers
    ensures Before(m, m.layers, u, step).Shaped(m.layers, m.rows)
    ensures CellEvolves(m, u, step, Before(m, m.layers, u, step), k)
  {
    hide Before, AttnIn, Keys, InputIs;
    InputsAre(m, k, u, step);
    CacheIs(m, k, m.layers, u, step);
    if k !in m.cfg.kvSources { OthersKept(m, k, m.layers, u, step); }
  }

  lemma CandIs(m: Model, u: State, step: Step)
    requires Fine(m, u)
    ensures Before(m, m.layers, u, step).cand == NextCand(m, u, step)
  {
    var c, start, layers := m.cfg.candSource, Start(m, step), m.layers;
    hide m.StateAt, m.InputAt, m.CarryAt, m.Feed, m.LayerState, AttnIn, Keys, Put, InputIs;
    RowsAt(m, 0, layers, u, start, step);
    AtNext(m, 0, 0, u, start, step);
    if 0 <= c < layers {
      CachesAt(m, c, u, start, step);
      RowsAt(m, 0, c, u, start, step);
      RowsAt(m, c + 1, layers, u, start, step);
      AtNext(m, 0, c, u, start, step);
      LayerWrites(m, c, m.InputAt(0, c, u, start, step), m.StateAt(0, c, u, start, step), step);
      if c in m.cfg.idxSources {
        SourcesBelow(m, c);
        InputsAre(m, c, u, step);
        if m.cfg.candBlocks > 0 { IndexerRuns(m, c, u, step); } else { NoCandidates(m, c, u, step); }
      }
    }
  }

  /** Without candidate blocks no indexer publishes. */
  lemma NoCandidates(m: Model, l: nat, u: State, step: Step)
    requires Fine(m, u) && m.cfg.candBlocks == 0
    ensures Before(m, l + 1, u, step).cand == Before(m, l, u, step).cand
  {
    hide m.StateAt, m.InputAt, m.CarryAt;
    CachesAt(m, l, u, Start(m, step), step);
    AtNext(m, 0, l, u, Start(m, step), step);
    hide m.TopkRow;
  }

  lemma StepEvolves(m: Model, u: State, step: Step)
    requires Fine(m, u)
    ensures Evolves(m, u, step, m.StateAt(0, m.layers, u, Start(m, step), step))
  {
    CandIs(m, u, step);
    CachesAt(m, m.layers, u, Start(m, step), step);
    hide m.StateAt, NextCand, CellEvolves;
    forall k: nat | k < m.layers
      ensures CellEvolves(m, u, step, m.StateAt(0, m.layers, u, Start(m, step), step), k)
    {
      CellIs(m, k, u, step);
    }
  }

  /** The results of a run from u, and the memories between its steps. */
  ghost predicate Computes(m: Model, us: seq<State>, steps: seq<Step>, results: seq<(int, int)>) {
    && |us| == |steps| + 1 && |results| == |steps| && m.layers > 0
    && forall i :: 0 <= i < |steps| ==> StepComputes(m, us[i], steps[i], us[i + 1], results[i])
  }

  ghost predicate StepComputes(m: Model, u: State, step: Step, u': State, result: (int, int)) {
    m.layers > 0 && Evolves(m, u, step, u') && result == Result(m, u, step)
  }

  /** Over any run, any legal partition that keeps the injections puts out, step by step, what the kernels compose to on
      memories that evolve as the kernels say. */
  lemma {:induction false} CutComputesRun(m: Model, ranges: seq<Range>, u: State, states: seq<State>, steps: seq<Step>)
    returns (us: seq<State>)
    requires Cut(m, ranges) && AllAgree(m, ranges, u, states) && u.Shaped(m.layers, m.rows) && m.layers > 0
    requires forall step :: step in steps ==> StepKept(m, ranges, step)
    ensures |us| > 0 && us[0] == u && Computes(m, us, steps, m.Run(ranges, states, steps))
    decreases |steps|
  {
    hide AllAgree, StepKept, m.StateAt, m.StepStates, m.StepResult, Evolves, Result;
    SameCount(m, ranges, u, states);
    if |steps| == 0 {
      us := [u];
    } else {
      var step := steps[0];
      assert StepKept(m, ranges, step);
      StepPreserves(m, ranges, u, states, step);
      CutComputes(m, ranges, u, states, step);
      StepEvolves(m, u, step);
      var next := m.StateAt(0, m.layers, u, Start(m, step), step);
      NextShaped(m, u, step, next);
      var rest := CutComputesRun(m, ranges, next, m.StepStates(ranges, states, step), steps[1..]);
      us := [u] + rest;
    }
  }

  lemma NextShaped(m: Model, u: State, step: Step, next: State)
    requires Evolves(m, u, step, next)
    ensures next.Shaped(m.layers, m.rows)
  {
  }
}
