/** A rank as an object: caches and shared buffers updated in place by shadows and layers. */
module ShadowRank {
  import opened Basics
  import opened ShadowPlan
  import opened ShadowModel
  import opened ShadowForward

  lemma NextShadow(m: Model, ids: seq<nat>, k: nat, needs: map<nat, bool>, src: map<nat, int>, st: State, step: Step)
    requires k < |ids| && ids[k] in needs && ids[k] in src
    ensures m.RunShadows(ids[..k + 1], needs, src, st, step) ==
            m.Shadow(ids[k], src[ids[k]], m.RunShadows(ids[..k], needs, src, st, step), step, needs[ids[k]])
  {
    hide m.Shadow;
    assert ids[..k + 1][..k] == ids[..k];
  }

  lemma NoShadows(m: Model, needs: map<nat, bool>, src: map<nat, int>, st: State, step: Step)
    ensures m.RunShadows([], needs, src, st, step) == st
  {
  }

  class Rank {
    const m: Model
    const plan: PPShadowPlan
    const kv: array<int>      // compressed cache and index keys, by source
    const swa: array<int>     // sliding-window cache, by layer
    const topk: array<int>    // shared top-k rows
    const cand: array<int>    // shared candidate rows

    constructor (m: Model, plan: PPShadowPlan, start: State)
      requires start.Shaped(m.layers, m.rows)
      ensures Valid() && fresh(kv) && fresh(swa) && fresh(topk) && fresh(cand)
      ensures this.m == m && this.plan == plan && Memory() == start
    {
      this.m, this.plan := m, plan;
      kv := new int[|start.kv|](i requires 0 <= i < |start.kv| => start.kv[i]);
      swa := new int[|start.swa|](i requires 0 <= i < |start.swa| => start.swa[i]);
      topk := new int[|start.topk|](i requires 0 <= i < |start.topk| => start.topk[i]);
      cand := new int[|start.cand|](i requires 0 <= i < |start.cand| => start.cand[i]);
      new;
      assert kv[..] == start.kv && swa[..] == start.swa && topk[..] == start.topk && cand[..] == start.cand;
    }

    ghost predicate Valid() {
      && kv.Length == swa.Length == m.layers && topk.Length == cand.Length == m.rows
      && kv != swa && kv != topk && kv != cand && swa != topk && swa != cand && topk != cand
    }

    ghost function Memory(): State
      reads kv, swa, topk, cand
    {
      State(kv[..], swa[..], topk[..], cand[..])
    }

    /** Latents and index keys of a kv source. */
    method Compress(l: nat, x: int, step: Step)
      requires Valid()
      modifies kv
      ensures Memory() == m.Compress(l, x, old(Memory()), step)
    {
      if l in m.cfg.kvSources && l < kv.Length {
        kv[l] := m.net.compress(l, kv[l], x, step);
      }
    }

    /** Overwrites the first n rows of a buffer. */
    static method Store(buf: array<int>, n: nat, row: nat -> int)
      modifies buf
      ensures buf[..] == Put(old(buf[..]), n, row)
    {
      var j := 0;
      while j < n && j < buf.Length
        invariant j <= n && j <= buf.Length
        invariant forall i :: 0 <= i < buf.Length ==> buf[i] == if i < j then row(i) else old(buf[i])
      {
        buf[j] := row(j);
        j := j + 1;
      }
    }

    method Publish(l: nat, x: int, step: Step, op: bool)
      requires Valid()
      modifies topk, cand
      ensures Memory() == m.RunIndexer(l, x, old(Memory()), step, op)
    {
      var k := m.cfg.KvSrc(l);
      var key := if 0 <= k < kv.Length then kv[k] else 0;
      var rows := Take(cand[..], step.n);
      if m.net.isShort(l, step) || op {
        Store(topk, step.n, (row: nat) => m.TopkRow(l, x, key, rows, step, row));
      }
      if !m.net.isShort(l, step) && op && m.cfg.HasCand() && m.cfg.candSource == l {
        Store(cand, step.n, (row: nat) => m.net.blocks(l, x, key, step, row));
      }
    }

    /** ShadowSource.run */
    method RunShadow(s: nat, x: int, step: Step, needTopk: bool)
      requires Valid()
      modifies kv, topk, cand
      ensures Memory() == m.Shadow(s, x, old(Memory()), step, needTopk)
    {
      hide m.RunIndexer, m.Compress;
      Compress(s, x, step);
      if s in m.cfg.idxSources { Publish(s, x, step, needTopk); }
    }

    /** One decoder layer; x is the attention input a later rank may need. */
    method RunLayer(l: nat, c: Carry, step: Step) returns (next: Carry, x: int)
      requires Valid()
      modifies kv, swa, topk, cand
      ensures x == m.Feed(l, c, step).x
      ensures Memory() == m.LayerState(l, x, old(Memory()), step)
      ensures next == m.LayerCarry(l, m.Feed(l, c, step), Memory(), step)
    {
      hide m.RunIndexer, m.Compress, m.Feed;
      var f := m.Feed(l, c, step);
      x := f.x;
      Compress(l, x, step);
      if l < swa.Length { swa[l] := m.net.swa(l, swa[l], x, step); }
      if l in m.cfg.idxSources { Publish(l, x, step, true); }
      var k := m.cfg.KvSrc(l);
      var window := if l < swa.Length then swa[l] else 0;
      var att := if m.cfg.Compressed(l) then
                   m.net.attend(l, x, window, if 0 <= k < kv.Length then kv[k] else 0, Take(topk[..], step.n), step)
                 else m.net.attendWindow(l, x, window, step);
      var residual := m.net.post(att, f.residual, f.mix);
      var p := m.net.preFfn(l, residual, f.pre);
      next := Mid(m.net.ffn(l, p.x, step), residual, p.mix, p.pre);
    }

    /** Copies the received candidates and runs the shadows in ascending order. */
    method Prepare(ghost p: Plan, w: Wire, step: Step)
      requires Valid() && plan.Follows(p) && forall s :: s in p.needs ==> s in w.src
      modifies kv, topk, cand
      ensures Memory() == m.Prepared(p, old(Memory()), Some(w), step)
    {
      hide m.Shadow, m.RunShadows, Ascending;
      if plan.recvCand {
        Store(cand, step.n, (j: nat) => if j < |w.cand| then w.cand[j] else 0);
      }
      ghost var st := Memory();
      var ids := plan.shadowIds;
      AscendingExact(p.needs.Keys, p.end);
      NoShadows(m, p.needs, w.src, st, step);
      for k := 0 to |ids|
        invariant Memory() == m.RunShadows(ids[..k], p.needs, w.src, st, step)
      {
        assert ids[k] in ids;
        NextShadow(m, ids, k, p.needs, w.src, st, step);
        RunShadow(ids[k], w.src[ids[k]], step, plan.shadowNeeds[ids[k]]);
      }
      assert ids[..|ids|] == ids;
    }

    /** The local layers in order; inputs keeps the attention inputs a later rank asked for. */
    method RunLayers(ghost p: Plan, c0: Carry, step: Step) returns (c: Carry, inputs: map<nat, int>)
      requires Valid() && plan.Follows(p) && p.start <= p.end
      modifies kv, swa, topk, cand
      ensures Memory() == m.StateAt(p.start, p.end, old(Memory()), c0, step)
      ensures c == m.CarryAt(p.start, p.end, old(Memory()), c0, step)
      ensures forall s: nat :: s in inputs <==> p.Owned(s) && s < p.end
      ensures forall s :: s in inputs ==> inputs[s] == m.InputAt(p.start, s, old(Memory()), c0, step)
    {
      hide m.StateAt, m.CarryAt, m.InputAt, m.LayerState, m.LayerCarry, m.Feed;
      c, inputs := c0, map[];
      ghost var st := Memory();
      OwnedExact(p);
      AtNext(m, p.start, p.start, st, c0, step);
      for l := plan.start to plan.end
        invariant Memory() == m.StateAt(p.start, l, st, c0, step) && c == m.CarryAt(p.start, l, st, c0, step)
        invariant forall s: nat :: s in inputs <==> p.Owned(s) && s < l
        invariant forall s :: s in inputs ==> inputs[s] == m.InputAt(p.start, s, st, c0, step)
      {
        AtNext(m, p.start, l, st, c0, step);
        var next, x := RunLayer(l, c, step);
        if l in plan.ownedShipIds { inputs := inputs[l := x]; }
        c := next;
      }
    }

    /** The entry of a shipped source. */
    predicate Shipped(p: Plan, win: Option<Wire>, inputs: map<nat, int>, src: map<nat, int>, s: nat) {
      s in src && s in p.shipSet
      && if p.Owned(s) then s in inputs && src[s] == inputs[s]
         else win.Some? && s in win.value.src && src[s] == win.value.src[s]
    }

    /** The shipped attention inputs: own sources from this step's layers, the others forwarded. */
    method Ship(ghost p: Plan, win: Option<Wire>, inputs: map<nat, int>) returns (src: map<nat, int>)
      requires plan.Follows(p) && forall s :: s in p.shipSet ==> s < p.end
      requires forall s: nat :: s in inputs <==> p.Owned(s) && s < p.end
      requires forall s :: s in p.shipSet && !p.Owned(s) ==> win.Some? && s in win.value.src
      ensures src == map s | s in p.shipSet :: if p.Owned(s) then inputs[s] else win.value.src[s]
    {
      hide Ascending;
      src := map[];
      var ids := plan.shipIds;
      AscendingExact(p.shipSet, p.end);
      OwnedExact(p);
      for k := 0 to |ids|
        invariant forall s: nat :: s in src ==> Shipped(p, win, inputs, src, s)
        invariant forall q :: 0 <= q < k ==> ids[q] in src
      {
        var s := ids[k];
        assert s in ids && p.Owned(s) <==> s in plan.ownedShipIds;
        src := src[s := if s in plan.ownedShipIds then inputs[s] else win.value.src[s]];
      }
      forall s: nat | s in p.shipSet
        ensures s in src
      {
        assert s in ids;
      }
    }

    /** One step of the rank. */
    method Forward(ghost p: Plan, win: Option<Wire>, step: Step) returns (out: Wire)
      requires Valid() && plan.Follows(p) && p.start <= p.end && forall s :: s in p.shipSet ==> s < p.end
      requires win.Some? ==> forall s :: s in p.recvSet ==> s in win.value.src
      requires p.needs.Keys <= p.recvSet && forall s :: s in p.shipSet && s < p.start ==> win.Some? && s in p.recvSet
      modifies kv, swa, topk, cand
      ensures Memory() == m.RankState(p, old(Memory()), win, step)
      ensures out == m.RankWire(p, old(Memory()), win, step)
    {
      hide m.StateAt, m.CarryAt, m.InputAt, m.RunShadows, m.Collapse, m.PreOf;
      if win.Some? { Prepare(p, win.value, step); }
      ghost var st := Memory();
      var c, inputs := RunLayers(p, m.FirstCarry(win, step), step);
      var src := Ship(p, win, inputs);
      var rows := Take(cand[..], step.n);
      if !plan.shipCand { rows := []; }
      out := Wire(m.Collapse(c), m.PreOf(c), src, rows);
      ghost var want := m.RankWire(p, old(Memory()), win, step);
      assert out.src == want.src;
    }
  }
}
