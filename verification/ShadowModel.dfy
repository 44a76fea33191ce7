/** The decoder stack as caches and carries: one layer, one shadow, one rank, one step over all ranks.
    Kernels are uninterpreted functions; tensors are opaque values. */
module ShadowModel {
  import opened Basics
  import opened ShadowPlan

  /** One scheduling step: how many tokens, whatever else the kernels read, and whether n-gram hashes are there. */
  datatype Step = Step(n: nat, data: int, hashed: bool)

  /** A sublayer's mix coefficients, its input and the pre-mix it hands on. */
  datatype Pre = Pre(mix: int, x: int, pre: int)

  datatype Net = Net(
    embed: Step -> int, expand: int -> int,
    preFirst: (nat, int, int) -> Pre, preAttn: (nat, int, int) -> Pre, preFfn: (nat, int, int) -> Pre,
    post: (int, int, int) -> int, ffn: (nat, int, Step) -> int,
    hasEngram: nat -> bool, engram: (nat, int, Step) -> int,
    compress: (nat, int, int, Step) -> int, swa: (nat, int, int, Step) -> int,
    isShort: (nat, Step) -> bool, fill: (nat, Step, nat) -> int,
    select: (nat, int, int, Step, nat) -> int, selectMasked: (nat, int, int, seq<int>, Step, nat) -> int,
    blocks: (nat, int, int, Step, nat) -> int,
    attend: (nat, int, int, int, seq<int>, Step) -> int, attendWindow: (nat, int, int, Step) -> int)

  /** The stream between layers: the embedding, what a rank received, or a layer's unfinished residual. */
  datatype Carry = Embedded(h: int) | Received(h: int, pre: int) | Mid(x: int, residual: int, mix: int, pre: int)

  /** Per rank: a compressed cache per kv source, a window cache per layer, the shared top-k rows and candidate rows. */
  datatype State = State(kv: seq<int>, swa: seq<int>, topk: seq<int>, cand: seq<int>) {
    predicate Shaped(layers: nat, rows: nat) { |kv| == |swa| == layers && |topk| == |cand| == rows }

    function Cache(s: int): int { if 0 <= s < |kv| then kv[s] else 0 }
  }

  /** The first n rows of a buffer overwritten. */
  function Put(buf: seq<int>, n: nat, row: nat -> int): (r: seq<int>)
    ensures |r| == |buf|
  {
    seq(|buf|, j requires 0 <= j < |buf| => if j < n then row(j) else buf[j])
  }

  function Take(buf: seq<int>, n: nat): (r: seq<int>)
    ensures |r| <= n && |r| <= |buf|
    ensures n <= |buf| ==> |r| == n
  {
    if n <= |buf| then buf[..n] else buf
  }

  datatype Fed = Fed(residual: int, mix: int, x: int, pre: int)

  /** What a rank hands to the next: the stream, the shipped attention inputs, the candidate rows. */
  datatype Wire = Wire(h: int, pre: int, src: map<nat, int>, cand: seq<int>)

  datatype Model = Model(net: Net, cfg: Config, layers: nat, rows: nat) {

    /** From the carried stream to the attention input. Engram injection happens only on an unfinished residual. */
    function Feed(l: nat, c: Carry, step: Step): Fed {
      match c
      case Embedded(h) =>
        var residual := net.expand(h);
        var p := net.preFirst(l, residual, h);
        Fed(residual, p.mix, p.x, p.pre)
      case Received(h, pre) =>
        var p := net.preAttn(l, h, pre);
        Fed(h, p.mix, p.x, p.pre)
      case Mid(x, residual, mix, pre) =>
        var plain := net.post(x, residual, mix);
        var injected := if net.hasEngram(l) && step.hashed then net.engram(l, plain, step) else plain;
        var p := net.preAttn(l, injected, pre);
        Fed(injected, p.mix, p.x, p.pre)
    }

    /** A kv source appends this step's latents and index keys to its cache. */
    function Compress(l: nat, x: int, st: State, step: Step): State {
      if l in cfg.kvSources && l < |st.kv| then st.(kv := st.kv[l := net.compress(l, st.kv[l], x, step)]) else st
    }

    function TopkRow(l: nat, x: int, key: int, cand: seq<int>, step: Step, row: nat): int {
      if net.isShort(l, step) then net.fill(l, step, row)
      else if cfg.HasCand() && cfg.candSource < l then net.selectMasked(l, x, key, cand, step, row)
      else net.select(l, x, key, step, row)
    }

    /** The indexer: a short context selects everything at once; otherwise the op runs if asked, reading the
        keys of the layer's kv source and the candidates, which the candidate source publishes. */
    function RunIndexer(l: nat, x: int, st: State, step: Step, op: bool): State {
      if !net.isShort(l, step) && !op then st
      else
        var key, cand := st.Cache(cfg.KvSrc(l)), Take(st.cand, step.n);
        var st1 := st.(topk := Put(st.topk, step.n, (row: nat) => TopkRow(l, x, key, cand, step, row)));
        if !net.isShort(l, step) && cfg.HasCand() && cfg.candSource == l then
          st1.(cand := Put(st.cand, step.n, (row: nat) => net.blocks(l, x, key, step, row)))
        else st1
    }

    function Window(l: nat, x: int, st: State, step: Step): State {
      if l < |st.swa| then st.(swa := st.swa[l := net.swa(l, st.swa[l], x, step)]) else st
    }

    /** The caches and buffers after layer l's attention has prepared its inputs. */
    function LayerState(l: nat, x: int, st: State, step: Step): State {
      var st1 := Window(l, x, Compress(l, x, st, step), step);
      if l in cfg.idxSources then RunIndexer(l, x, st1, step, true) else st1
    }

    function Attend(l: nat, x: int, st: State, step: Step): int {
      var window := if l < |st.swa| then st.swa[l] else 0;
      if cfg.Compressed(l) then net.attend(l, x, window, st.Cache(cfg.KvSrc(l)), Take(st.topk, step.n), step)
      else net.attendWindow(l, x, window, step)
    }

    function LayerCarry(l: nat, f: Fed, st: State, step: Step): Carry {
      var residual := net.post(Attend(l, f.x, st, step), f.residual, f.mix);
      var p := net.preFfn(l, residual, f.pre);
      Mid(net.ffn(l, p.x, step), residual, p.mix, p.pre)
    }

    /** State and carry before layer l when the layers from a on run. */
    function StateAt(a: nat, l: nat, st: State, c: Carry, step: Step): State
      decreases l, 0
    {
      if l <= a then st
      else LayerState(l - 1, InputAt(a, l - 1, st, c, step), StateAt(a, l - 1, st, c, step), step)
    }

    function CarryAt(a: nat, l: nat, st: State, c: Carry, step: Step): Carry
      decreases l, 2
    {
      if l <= a then c
      else LayerCarry(l - 1, Feed(l - 1, CarryAt(a, l - 1, st, c, step), step), StateAt(a, l, st, c, step), step)
    }

    /** The attention input of layer l. */
    function InputAt(a: nat, l: nat, st: State, c: Carry, step: Step): int
      decreases l, 3
    {
      Feed(l, CarryAt(a, l, st, c, step), step).x
    }

    /** A shadow recomputes its source's cache from the shipped attention input, and its top-k if asked. */
    function Shadow(s: nat, x: int, st: State, step: Step, needTopk: bool): State {
      var st1 := Compress(s, x, st, step);
      if s in cfg.idxSources then RunIndexer(s, x, st1, step, needTopk) else st1
    }

    function RunShadows(ids: seq<nat>, needs: map<nat, bool>, src: map<nat, int>, st: State, step: Step): State {
      if |ids| == 0 then st
      else
        var s := ids[|ids| - 1];
        var st1 := RunShadows(ids[..|ids| - 1], needs, src, st, step);
        if s in needs && s in src then Shadow(s, src[s], st1, step, needs[s]) else st1
    }

    /** The stream with the last sublayer's residual closed. */
    function Collapse(c: Carry): int {
      match c
      case Mid(x, residual, mix, _) => net.post(x, residual, mix)
      case Embedded(h) => h
      case Received(h, _) => h
    }

    function PreOf(c: Carry): int {
      match c
      case Mid(_, _, _, pre) => pre
      case Embedded(_) => 0
      case Received(_, pre) => pre
    }

    function FirstCarry(win: Option<Wire>, step: Step): Carry {
      if win.None? then Embedded(net.embed(step)) else Received(win.value.h, win.value.pre)
    }

    /** A rank's state when its first layer starts: candidates received, shadows run. */
    function Prepared(p: Plan, st: State, win: Option<Wire>, step: Step): State {
      if win.None? then st
      else
        var w := win.value;
        var st1 := if p.recvCand then
                     st.(cand := Put(st.cand, step.n, (j: nat) => if j < |w.cand| then w.cand[j] else 0))
                   else st;
        RunShadows(p.ShadowIds(), p.needs, w.src, st1, step)
    }

    function RankState(p: Plan, st: State, win: Option<Wire>, step: Step): State {
      StateAt(p.start, p.end, Prepared(p, st, win, step), FirstCarry(win, step), step)
    }

    /** What the rank emits: its own sources' inputs, the others forwarded from its own input. */
    function RankWire(p: Plan, st: State, win: Option<Wire>, step: Step): Wire {
      var st1, c := Prepared(p, st, win, step), FirstCarry(win, step);
      var last := CarryAt(p.start, p.end, st1, c, step);
      var st2 := StateAt(p.start, p.end, st1, c, step);
      Wire(Collapse(last), PreOf(last),
           map s | s in p.shipSet && (p.Owned(s) || (win.Some? && s in win.value.src)) ::
             if p.Owned(s) then InputAt(p.start, s, st1, c, step) else win.value.src[s],
           if p.shipCand then Take(st2.cand, step.n) else [])
    }

    // ----- all ranks

    function WireInto(ranges: seq<Range>, states: seq<State>, step: Step, r: nat): Option<Wire>
      requires r <= |ranges| == |states|
      decreases r
    {
      if r == 0 then None
      else Some(RankWire(MakePlan(cfg, ranges, r - 1), states[r - 1], WireInto(ranges, states, step, r - 1), step))
    }

    /** The states of all ranks after a step, and what the last rank puts out. */
    function StepStates(ranges: seq<Range>, states: seq<State>, step: Step): (next: seq<State>)
      requires |ranges| == |states|
      ensures |next| == |states|
    {
      seq(|states|, r requires 0 <= r < |states| =>
        RankState(MakePlan(cfg, ranges, r), states[r], WireInto(ranges, states, step, r), step))
    }

    function StepResult(ranges: seq<Range>, states: seq<State>, step: Step): (int, int)
      requires |ranges| == |states| > 0
    {
      var w := WireInto(ranges, states, step, |ranges|).value;
      (w.h, w.pre)
    }

    /** The results of a whole run. */
    function Run(ranges: seq<Range>, states: seq<State>, steps: seq<Step>): seq<(int, int)>
      requires |ranges| == |states| > 0
      decreases |steps|
    {
      if |steps| == 0 then []
      else [StepResult(ranges, states, steps[0])] + Run(ranges, StepStates(ranges, states, steps[0]), steps[1..])
    }

    function FinalStates(ranges: seq<Range>, states: seq<State>, steps: seq<Step>): (next: seq<State>)
      requires |ranges| == |states|
      ensures |next| == |states|
      decreases |steps|
    {
      if |steps| == 0 then states else FinalStates(ranges, StepStates(ranges, states, steps[0]), steps[1..])
    }
  }
}
