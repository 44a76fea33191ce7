/** Cutting the layer stack preserves meaning: the ranks' composed forward against the uncut one. */
module ShadowForward {
  import opened Basics
  import opened ShadowPlan
  import opened ShadowModel

  predicate RowsAgree(a: seq<int>, b: seq<int>, n: nat) { Take(a, n) == Take(b, n) }

  /** A cache of source s exists on the rank. */
  predicate Reads(p: Plan, s: int) { s in p.needs || p.start <= s < p.end }

  /** A compressed layer of the plan's range has its caches and its top-k at hand. */
  predicate Served(cfg: Config, p: Plan, l: nat) {
    && cfg.KvSrc(l) >= 0 && cfg.KvSrc(l) in cfg.kvSources && Reads(p, cfg.KvSrc(l))
    && (cfg.IdxSrc(l) >= p.start || (cfg.IdxSrc(l) in p.needs && p.needs[cfg.IdxSrc(l)]))
  }

  /** A shadow has its keys at hand, and a shadow that needs top-k is the last. */
  predicate ShadowServed(cfg: Config, p: Plan, s: nat)
    requires s in p.needs
  {
    && 0 < p.start && s < p.start && s in cfg.idxSources && cfg.Compressed(s)
    && (p.needs[s] ==> cfg.KvSrc(s) >= 0 && cfg.KvSrc(s) in p.needs && cfg.KvSrc(s) in cfg.kvSources
                       && s == cfg.IdxSrc(p.start - 1) && forall t :: t in p.needs ==> t <= s)
  }

  ghost predicate GoodPlan(cfg: Config, p: Plan) {
    && p.start < p.end
    && (forall l: nat :: p.start <= l < p.end && cfg.Compressed(l) ==> Served(cfg, p, l))
    && (forall s :: s in p.needs ==> ShadowServed(cfg, p, s))
    && p.recvCand == (cfg.HasCand() && p.start > cfg.candSource)
  }

  lemma KvBelowIdx(cfg: Config, l: nat)
    requires cfg.Valid()
    ensures cfg.KvSrc(l) <= cfg.IdxSrc(l)
  {
    var k := cfg.KvSrc(l);
    if k >= 0 { assert k in cfg.idxSources; }
  }

  lemma LayerServed(cfg: Config, p: Plan, l: nat)
    requires cfg.Valid() && p.needs == Needs(cfg, p.start, p.end) && p.start <= l < p.end && cfg.Compressed(l)
    ensures Served(cfg, p, l)
  {
    var k, i := cfg.KvSrc(l), cfg.IdxSrc(l);
    KvBelowIdx(cfg, l);
    if k < p.start {
      assert KvNeed(cfg, p.start, l, k);
      NeedsExact(cfg, p.start, p.end, k);
    }
    if i < p.start {
      assert TopkNeed(cfg, p.start, l, i);
      NeedsExact(cfg, p.start, p.end, i);
    }
  }

  /** A local compressed layer that reads s's top-k reads the same kv source's keys. */
  lemma TopkKeys(cfg: Config, p: Plan, s: nat, l: nat)
    requires cfg.Valid() && p.needs == Needs(cfg, p.start, p.end) && p.start <= l < p.end
    requires TopkNeed(cfg, p.start, l, s)
    ensures cfg.KvSrc(s) == cfg.KvSrc(l) >= 0 && cfg.KvSrc(s) in cfg.kvSources && cfg.KvSrc(s) in p.needs
  {
    hide Needs;
    var k := cfg.KvSrc(l);
    KvBelowIdx(cfg, l);
    LatestUnique(cfg.kvSources, s, k, cfg.KvSrc(s));
    assert KvNeed(cfg, p.start, l, k);
    NeedsExact(cfg, p.start, p.end, k);
  }

  lemma LastShadow(cfg: Config, p: Plan, s: nat)
    requires cfg.Valid() && p.needs == Needs(cfg, p.start, p.end) && s in p.needs
    ensures 0 < p.start && s < p.start && s in cfg.idxSources && cfg.Compressed(s)
    ensures p.needs[s] ==> s == cfg.IdxSrc(p.start - 1) && forall t :: t in p.needs ==> t <= s
  {
    hide Needs;
    AtMostTwoShadows(cfg, p.start, p.end, s);
    NeedsExact(cfg, p.start, p.end, s);
    forall t | t in p.needs && p.needs[s]
      ensures t <= s
    {
      AtMostTwoShadows(cfg, p.start, p.end, t);
    }
  }

  lemma NeedServed(cfg: Config, p: Plan, s: nat)
    requires cfg.Valid() && p.needs == Needs(cfg, p.start, p.end) && s in p.needs
    ensures ShadowServed(cfg, p, s)
  {
    hide Needs, TopkNeed;
    LastShadow(cfg, p, s);
    if p.needs[s] {
      NeedsExact(cfg, p.start, p.end, s);
      var l: nat :| p.start <= l < p.end && TopkNeed(cfg, p.start, l, s);
      TopkKeys(cfg, p, s, l);
    }
  }

  lemma PlansAreGood(cfg: Config, ranges: seq<Range>, layers: nat, r: nat)
    requires cfg.Valid() && Legal(ranges, layers) && r < |ranges|
    ensures GoodPlan(cfg, MakePlan(cfg, ranges, r))
    ensures r == 0 ==> MakePlan(cfg, ranges, r).needs == map[]
  {
    var p := MakePlan(cfg, ranges, r);
    if r == 0 { EndsAreQuiet(cfg, ranges, layers); NothingBelowZero(cfg, p.end); }
    hide Served, ShadowServed;
    forall l: nat | p.start <= l < p.end && cfg.Compressed(l)
      ensures Served(cfg, p, l)
    {
      LayerServed(cfg, p, l);
    }
    forall s | s in p.needs
      ensures ShadowServed(cfg, p, s)
    {
      NeedServed(cfg, p, s);
    }
  }

  lemma NothingBelowZero(cfg: Config, end: nat)
    ensures Needs(cfg, 0, end) == map[]
  {
    if s :| s in Needs(cfg, 0, end) {
      NeedsExact(cfg, 0, end, s);
    }
  }

  // ----- one layer

  /** Some layer of [l, end) still reads top-k rows published before l. */
  ghost predicate Wants(cfg: Config, l: nat, end: nat) {
    exists q: nat :: l <= q < end && cfg.Compressed(q) && cfg.IdxSrc(q) < l
  }

  ghost predicate CachesAgree(cfg: Config, p: Plan, u: State, s: State) {
    forall k: nat :: k in cfg.kvSources && Reads(p, k) ==> u.Cache(k) == s.Cache(k)
  }

  ghost predicate WindowsAgree(p: Plan, u: State, s: State) {
    |u.swa| == |s.swa| && forall l: nat :: p.start <= l < p.end && l < |u.swa| ==> u.swa[l] == s.swa[l]
  }

  /** Before layer l the rank's state s agrees with the uncut state u on all that is still read. */
  ghost predicate Tracks(m: Model, p: Plan, l: nat, u: State, s: State, n: nat) {
    && u.Shaped(m.layers, m.rows) && s.Shaped(m.layers, m.rows)
    && CachesAgree(m.cfg, p, u, s) && WindowsAgree(p, u, s)
    && (Wants(m.cfg, l, p.end) ==> RowsAgree(u.topk, s.topk, n))
    && (m.cfg.HasCand() && m.cfg.candSource < l ==> RowsAgree(u.cand, s.cand, n))
    && (m.cfg.HasCand() && p.start <= m.cfg.candSource < p.end ==> u.cand == s.cand)
  }

  /** Compress and Window keep the rank in step: the kv part. */
  lemma CompressTracks(m: Model, p: Plan, l: nat, x: int, u: State, s: State, step: Step)
    requires u.Shaped(m.layers, m.rows) && s.Shaped(m.layers, m.rows) && CachesAgree(m.cfg, p, u, s)
    requires WindowsAgree(p, u, s)
    requires p.start <= l < p.end
    ensures var u1 := m.Window(l, x, m.Compress(l, x, u, step), step);
            var s1 := m.Window(l, x, m.Compress(l, x, s, step), step);
            && u1.Shaped(m.layers, m.rows) && s1.Shaped(m.layers, m.rows)
            && CachesAgree(m.cfg, p, u1, s1) && WindowsAgree(p, u1, s1)
            && u1.topk == u.topk && s1.topk == s.topk && u1.cand == u.cand && s1.cand == s.cand
  {
    if l in m.cfg.kvSources && l < m.layers { assert u.Cache(l) == s.Cache(l); }
  }

  /** What the indexer leaves: fresh top-k rows, fresh candidates at their source, all else as it was. */
  lemma IndexerTracks(m: Model, p: Plan, l: nat, x: int, u: State, s: State, step: Step)
    requires u.Shaped(m.layers, m.rows) && s.Shaped(m.layers, m.rows)
    requires u.Cache(m.cfg.KvSrc(l)) == s.Cache(m.cfg.KvSrc(l))
    requires m.cfg.HasCand() && m.cfg.candSource < l ==> RowsAgree(u.cand, s.cand, step.n)
    ensures var u1, s1 := m.RunIndexer(l, x, u, step, true), m.RunIndexer(l, x, s, step, true);
            && RowsAgree(u1.topk, s1.topk, step.n)
            && u1.kv == u.kv && s1.kv == s.kv && u1.swa == u.swa && s1.swa == s.swa
            && u1.Shaped(m.layers, m.rows) && s1.Shaped(m.layers, m.rows)
            && (u.cand == s.cand ==> u1.cand == s1.cand)
            && (m.cfg.candSource != l ==> u1.cand == u.cand && s1.cand == s.cand)
            && (RowsAgree(u1.cand, s.cand, step.n) ==> RowsAgree(u1.cand, s1.cand, step.n))
  {
    var key := u.Cache(m.cfg.KvSrc(l));
    var row := (j: nat) => m.TopkRow(l, x, key, Take(u.cand, step.n), step, j);
    assert forall j: nat ::
        m.TopkRow(l, x, key, Take(u.cand, step.n), step, j) == m.TopkRow(l, x, key, Take(s.cand, step.n), step, j);
  }

  /** Wanting earlier rows past layer l, which is no index source, is wanting them at l. */
  lemma WantsEarlier(cfg: Config, l: nat, end: nat)
    requires cfg.Valid() && l !in cfg.idxSources && Wants(cfg, l + 1, end)
    ensures Wants(cfg, l, end)
  {
    var q: nat :| l + 1 <= q < end && cfg.Compressed(q) && cfg.IdxSrc(q) < l + 1;
    KvBelowIdx(cfg, q);
    assert cfg.IdxSrc(q) != l;
  }

  lemma WantsOwn(cfg: Config, l: nat, end: nat)
    requires cfg.Valid() && l !in cfg.idxSources && cfg.Compressed(l) && l < end
    ensures Wants(cfg, l, end)
  {
    KvBelowIdx(cfg, l);
    assert cfg.IdxSrc(l) != l;
  }

  /** One layer keeps the rank in step. */
  lemma LayerTracks(m: Model, p: Plan, l: nat, x: int, u: State, s: State, step: Step)
    requires m.cfg.Valid() && GoodPlan(m.cfg, p) && p.start <= l < p.end && Tracks(m, p, l, u, s, step.n)
    ensures Tracks(m, p, l + 1, m.LayerState(l, x, u, step), m.LayerState(l, x, s, step), step.n)
    ensures m.cfg.Compressed(l) ==>
              RowsAgree(m.LayerState(l, x, u, step).topk, m.LayerState(l, x, s, step).topk, step.n)
  {
    hide m.Window, m.Compress, m.RunIndexer, GoodPlan, CachesAgree, WindowsAgree, Wants;
    CompressTracks(m, p, l, x, u, s, step);
    var u1, s1 := m.Window(l, x, m.Compress(l, x, u, step), step), m.Window(l, x, m.Compress(l, x, s, step), step);
    if l in m.cfg.idxSources {
      KeyAgrees(m.cfg, p, l, u1, s1);
      IndexerTracks(m, p, l, x, u1, s1, step);
      SameCaches(m.cfg, p, u1, s1, m.RunIndexer(l, x, u1, step, true), m.RunIndexer(l, x, s1, step, true));
    } else {
      if Wants(m.cfg, l + 1, p.end) { WantsEarlier(m.cfg, l, p.end); }
      if m.cfg.Compressed(l) { WantsOwn(m.cfg, l, p.end); }
    }
  }

  lemma KeyAgrees(cfg: Config, p: Plan, l: nat, u: State, s: State)
    requires GoodPlan(cfg, p) && p.start <= l < p.end && cfg.Compressed(l) && CachesAgree(cfg, p, u, s)
    ensures u.Cache(cfg.KvSrc(l)) == s.Cache(cfg.KvSrc(l))
  {
    assert Served(cfg, p, l);
  }

  lemma SameCaches(cfg: Config, p: Plan, u: State, s: State, u': State, s': State)
    requires CachesAgree(cfg, p, u, s) && WindowsAgree(p, u, s)
    requires u'.kv == u.kv && s'.kv == s.kv && u'.swa == u.swa && s'.swa == s.swa
    ensures CachesAgree(cfg, p, u', s') && WindowsAgree(p, u', s')
  {
    forall k: nat | k in cfg.kvSources && Reads(p, k)
      ensures u'.Cache(k) == s'.Cache(k)
    {
      assert u.Cache(k) == s.Cache(k);
    }
  }

  /** Both sides compute the same attention output. */
  lemma AttendAgrees(m: Model, p: Plan, l: nat, x: int, u: State, s: State, step: Step)
    requires GoodPlan(m.cfg, p) && p.start <= l < p.end <= m.layers && Tracks(m, p, l + 1, u, s, step.n)
    requires m.cfg.Compressed(l) ==> RowsAgree(u.topk, s.topk, step.n)
    ensures m.Attend(l, x, u, step) == m.Attend(l, x, s, step)
  {
    hide GoodPlan, CachesAgree, Wants;
    assert u.swa[l] == s.swa[l];
    if m.cfg.Compressed(l) { KeyAgrees(m.cfg, p, l, u, s); }
  }

  /** One step of the recursion over layers. */
  lemma AtNext(m: Model, a: nat, l: nat, st: State, c: Carry, step: Step)
    requires a <= l
    ensures m.StateAt(a, l + 1, st, c, step)
            == m.LayerState(l, m.InputAt(a, l, st, c, step), m.StateAt(a, l, st, c, step), step)
    ensures m.CarryAt(a, l + 1, st, c, step) ==
            m.LayerCarry(l, m.Feed(l, m.CarryAt(a, l, st, c, step), step), m.StateAt(a, l + 1, st, c, step), step)
    ensures m.InputAt(a, l, st, c, step) == m.Feed(l, m.CarryAt(a, l, st, c, step), step).x
    ensures m.StateAt(a, a, st, c, step) == st && m.CarryAt(a, a, st, c, step) == c
  {
    hide m.LayerState, m.LayerCarry, m.Feed;
  }

  lemma CarryAgrees(m: Model, l: nat, f: Fed, u: State, s: State, step: Step)
    requires m.Attend(l, f.x, u, step) == m.Attend(l, f.x, s, step)
    ensures m.LayerCarry(l, f, u, step) == m.LayerCarry(l, f, s, step)
  {
    hide m.Attend;
  }

  /** The layers of a rank, run after its shadows, keep it in step with the uncut stack. */
  lemma {:induction false} LayersTrack(m: Model, p: Plan, l: nat, u: State, cu: Carry, s: State, cs: Carry, step: Step)
    requires m.cfg.Valid() && GoodPlan(m.cfg, p) && p.start <= l <= p.end <= m.layers
    requires Tracks(m, p, p.start, m.StateAt(0, p.start, u, cu, step), s, step.n)
    requires m.Feed(p.start, m.CarryAt(0, p.start, u, cu, step), step) == m.Feed(p.start, cs, step)
    ensures Tracks(m, p, l, m.StateAt(0, l, u, cu, step), m.StateAt(p.start, l, s, cs, step), step.n)
    ensures m.Feed(l, m.CarryAt(0, l, u, cu, step), step) == m.Feed(l, m.CarryAt(p.start, l, s, cs, step), step)
    ensures l > p.start ==> m.CarryAt(0, l, u, cu, step) == m.CarryAt(p.start, l, s, cs, step)
    decreases l
  {
    hide m.LayerState, m.LayerCarry, m.Attend, m.Feed, m.StateAt, m.CarryAt, m.InputAt, Tracks, GoodPlan;
    AtNext(m, p.start, p.start, s, cs, step);
    if l > p.start {
      LayersTrack(m, p, l - 1, u, cu, s, cs, step);
      AtNext(m, 0, l - 1, u, cu, step);
      AtNext(m, p.start, l - 1, s, cs, step);
      var x := m.InputAt(0, l - 1, u, cu, step);
      LayerTracks(m, p, l - 1, x, m.StateAt(0, l - 1, u, cu, step), m.StateAt(p.start, l - 1, s, cs, step), step);
      AttendAgrees(m, p, l - 1, x, m.StateAt(0, l, u, cu, step), m.StateAt(p.start, l, s, cs, step), step);
      CarryAgrees(m, l - 1, m.Feed(l - 1, m.CarryAt(0, l - 1, u, cu, step), step),
                  m.StateAt(0, l, u, cu, step), m.StateAt(p.start, l, s, cs, step), step);
    }
  }

  // ----- how the uncut stack's caches evolve within a step

  /** The cells a layer writes. */
  ghost predicate Wrote(m: Model, l: nat, x: int, st: State, st': State, step: Step) {
    && st.Shaped(m.layers, m.rows) && st'.Shaped(m.layers, m.rows)
    && (forall k: nat :: k < m.layers ==>
          && st'.kv[k] == (if k == l && k in m.cfg.kvSources then m.net.compress(k, st.kv[k], x, step) else st.kv[k])
          && st'.swa[k] == (if k == l then m.net.swa(k, st.swa[k], x, step) else st.swa[k]))
    && (m.cfg.candSource != l ==> st'.cand == st.cand)
    && (l !in m.cfg.idxSources ==> st'.topk == st.topk && st'.cand == st.cand)
  }

  lemma LayerWrites(m: Model, l: nat, x: int, st: State, step: Step)
    requires st.Shaped(m.layers, m.rows)
    ensures Wrote(m, l, x, st, m.LayerState(l, x, st, step), step)
  {
    hide m.TopkRow;
  }

  /** Each source and each window is written exactly once, at its own layer, from that layer's attention input. */
  lemma {:induction false} CachesAt(m: Model, l: nat, u: State, c: Carry, step: Step)
    requires u.Shaped(m.layers, m.rows)
    ensures m.StateAt(0, l, u, c, step).Shaped(m.layers, m.rows)
    ensures forall k: nat :: k < m.layers && k in m.cfg.kvSources ==>
              (m.StateAt(0, l, u, c, step).kv[k] ==
               if k < l then m.net.compress(k, u.kv[k], m.InputAt(0, k, u, c, step), step) else u.kv[k])
    ensures forall k: nat :: k < m.layers ==>
              (m.StateAt(0, l, u, c, step).swa[k] ==
               if k < l then m.net.swa(k, u.swa[k], m.InputAt(0, k, u, c, step), step) else u.swa[k])
    decreases l
  {
    hide m.StateAt, m.InputAt, m.CarryAt, m.LayerState, m.LayerCarry;
    if l > 0 {
      CachesAt(m, l - 1, u, c, step);
      AtNext(m, 0, l - 1, u, c, step);
      LayerWrites(m, l - 1, m.InputAt(0, l - 1, u, c, step), m.StateAt(0, l - 1, u, c, step), step);
    } else {
      AtNext(m, 0, 0, u, c, step);
    }
  }

  /** Candidates change only at the candidate source, top-k rows only at index sources. */
  lemma {:induction false} RowsAt(m: Model, a: nat, l: nat, u: State, c: Carry, step: Step)
    requires u.Shaped(m.layers, m.rows) && a <= l
    ensures !(a <= m.cfg.candSource < l) ==>
              m.StateAt(0, l, u, c, step).cand == m.StateAt(0, a, u, c, step).cand
    ensures (forall i: nat :: a <= i < l ==> i !in m.cfg.idxSources) ==>
              m.StateAt(0, l, u, c, step).topk == m.StateAt(0, a, u, c, step).topk
    decreases l
  {
    hide m.StateAt, m.InputAt, m.CarryAt, m.LayerState, m.LayerCarry;
    if l > a {
      RowsAt(m, a, l - 1, u, c, step);
      AtNext(m, 0, l - 1, u, c, step);
      CachesAt(m, l - 1, u, c, step);
      LayerWrites(m, l - 1, m.InputAt(0, l - 1, u, c, step), m.StateAt(0, l - 1, u, c, step), step);
    }
  }

  // ----- shadows

  /** A shadow that runs its indexer publishes the rows the uncut stack still holds when the rank starts. */
  lemma ShadowRows(m: Model, start: nat, i: nat, u: State, c: Carry, s: State, step: Step)
    requires m.cfg.Valid() && u.Shaped(m.layers, m.rows) && s.Shaped(m.layers, m.rows) && start <= m.layers
    requires i < start && i == m.cfg.IdxSrc(start - 1) && m.cfg.Compressed(i)
    requires s.Cache(m.cfg.KvSrc(i)) == m.StateAt(0, start, u, c, step).Cache(m.cfg.KvSrc(i))
    requires m.cfg.HasCand() && m.cfg.candSource < start ==>
              RowsAgree(m.StateAt(0, start, u, c, step).cand, s.cand, step.n)
    ensures var s1 := m.RunIndexer(i, m.InputAt(0, i, u, c, step), s, step, true);
            && RowsAgree(m.StateAt(0, start, u, c, step).topk, s1.topk, step.n)
            && (m.cfg.HasCand() && m.cfg.candSource < start ==>
                  RowsAgree(m.StateAt(0, start, u, c, step).cand, s1.cand, step.n))
            && s1.kv == s.kv && s1.swa == s.swa && s1.Shaped(m.layers, m.rows)
            && (m.cfg.candSource != i ==> s1.cand == s.cand)
  {
    hide m.StateAt, m.InputAt, m.CarryAt, m.RunIndexer, m.Window, m.Compress, m.LayerCarry;
    var x, before := m.InputAt(0, i, u, c, step), m.StateAt(0, i, u, c, step);
    var at := m.Window(i, x, m.Compress(i, x, before, step), step);
    AtNext(m, 0, i, u, c, step);
    CachesAt(m, i, u, c, step);
    PrepareShape(m, i, x, before, step);
    KeyStays(m, start, i, u, c, step);
    RowsStay(m, start, i, u, c, step);
    IndexerTracks(m, Plan(0, 0, map[], {}, {}, false, false), i, x, at, s, step);
  }

  lemma RowsStay(m: Model, start: nat, i: nat, u: State, c: Carry, step: Step)
    requires u.Shaped(m.layers, m.rows) && i < start && i == m.cfg.IdxSrc(start - 1)
    ensures m.StateAt(0, i + 1, u, c, step).topk == m.StateAt(0, start, u, c, step).topk
    ensures m.cfg.candSource < i ==> m.StateAt(0, i, u, c, step).cand == m.StateAt(0, start, u, c, step).cand
    ensures m.cfg.candSource <= i ==> m.StateAt(0, i + 1, u, c, step).cand == m.StateAt(0, start, u, c, step).cand
  {
    hide m.StateAt;
    RowsAt(m, i + 1, start, u, c, step);
    RowsAt(m, i, start, u, c, step);
  }

  lemma PrepareShape(m: Model, l: nat, x: int, st: State, step: Step)
    requires st.Shaped(m.layers, m.rows)
    ensures var st1 := m.Window(l, x, m.Compress(l, x, st, step), step);
            st1.Shaped(m.layers, m.rows) && st1.cand == st.cand && st1.topk == st.topk
    ensures var st1 := m.Window(l, x, m.Compress(l, x, st, step), step);
            m.RunIndexer(l, x, st1, step, true).kv == st1.kv
  {
    hide m.TopkRow;
  }

  /** The keys layer i's indexer reads do not change after layer i. */
  lemma KeyStays(m: Model, start: nat, i: nat, u: State, c: Carry, step: Step)
    requires m.cfg.Valid() && u.Shaped(m.layers, m.rows) && i < start <= m.layers && m.cfg.Compressed(i)
    ensures m.StateAt(0, i + 1, u, c, step).Cache(m.cfg.KvSrc(i))
            == m.StateAt(0, start, u, c, step).Cache(m.cfg.KvSrc(i))
  {
    hide m.StateAt, m.InputAt;
    CachesAt(m, i + 1, u, c, step);
    CachesAt(m, start, u, c, step);
  }

  /** Between steps a rank's state r agrees with the uncut state on everything the rank keeps. */
  ghost predicate Agrees(m: Model, p: Plan, u: State, r: State) {
    && u.Shaped(m.layers, m.rows) && r.Shaped(m.layers, m.rows)
    && CachesAgree(m.cfg, p, u, r) && WindowsAgree(p, u, r)
    && (m.cfg.HasCand() && p.start <= m.cfg.candSource < p.end ==> u.cand == r.cand)
  }

  /** Cache t on a rank where the shadows below k have run: caught up, or still as at the start of the step. */
  predicate CacheIs(p: Plan, us: State, r: State, s: State, k: nat, t: nat) {
    s.Cache(t) == if t in p.needs && k <= t then r.Cache(t) else us.Cache(t)
  }

  ghost predicate CachesDone(cfg: Config, p: Plan, us: State, r: State, s: State, k: nat) {
    forall t: nat :: t in cfg.kvSources && Reads(p, t) ==> CacheIs(p, us, r, s, k, t)
  }

  /** The shadows with ids below k have run: r is the state they started from, us the uncut state at the rank's
      start. */
  ghost predicate ShadowsDone(m: Model, p: Plan, us: State, r: State, s: State, n: nat, k: nat) {
    && s.Shaped(m.layers, m.rows) && s.swa == r.swa
    && CachesDone(m.cfg, p, us, r, s, k)
    && (m.cfg.HasCand() && m.cfg.candSource < p.start ==> RowsAgree(us.cand, s.cand, n))
    && (p.start <= m.cfg.candSource ==> s.cand == r.cand)
    && (forall t: nat :: t in p.needs && p.needs[t] && t < k ==> RowsAgree(us.topk, s.topk, n))
  }

  /** The shadow catches its own cache up with the uncut stack. */
  lemma OwnCache(m: Model, u: State, c: Carry, r: State, s: State, step: Step, start: nat, q: nat)
    requires u.Shaped(m.layers, m.rows) && r.Shaped(m.layers, m.rows) && s.Shaped(m.layers, m.rows)
    requires q < start <= m.layers && q in m.cfg.kvSources && u.Cache(q) == r.Cache(q) == s.Cache(q)
    ensures m.Compress(q, m.InputAt(0, q, u, c, step), s, step).Cache(q) == m.StateAt(0, start, u, c, step).Cache(q)
  {
    hide m.StateAt, m.InputAt, m.CarryAt;
    CachesAt(m, start, u, c, step);
  }

  lemma CompressOnly(m: Model, q: nat, x: int, s: State, step: Step)
    requires s.Shaped(m.layers, m.rows)
    ensures var s1 := m.Compress(q, x, s, step);
            && s1.topk == s.topk && s1.cand == s.cand && s1.swa == s.swa && s1.Shaped(m.layers, m.rows)
            && (q !in m.cfg.kvSources ==> s1 == s)
            && forall t: nat :: t != q ==> s1.Cache(t) == s.Cache(t)
  {
  }

  /** Only the cache of source q may change, to what the uncut stack holds. */
  lemma ShadowCache(m: Model, p: Plan, u: State, c: Carry, r: State, s: State, step: Step, q: nat)
    requires m.cfg.Valid() && GoodPlan(m.cfg, p) && p.end <= m.layers && q in p.needs
    requires u.Shaped(m.layers, m.rows) && r.Shaped(m.layers, m.rows) && s.Shaped(m.layers, m.rows)
    requires CachesAgree(m.cfg, p, u, r)
    requires CachesDone(m.cfg, p, m.StateAt(0, p.start, u, c, step), r, s, q)
    ensures CachesDone(m.cfg, p, m.StateAt(0, p.start, u, c, step), r,
                       m.Compress(q, m.InputAt(0, q, u, c, step), s, step), q + 1)
  {
    hide m.StateAt, m.InputAt, m.CarryAt, m.Compress;
    var us, s1 := m.StateAt(0, p.start, u, c, step), m.Compress(q, m.InputAt(0, q, u, c, step), s, step);
    hide GoodPlan, CachesAgree, ShadowServed;
    ServedShadow(m.cfg, p, q);
    CompressOnly(m, q, m.InputAt(0, q, u, c, step), s, step);
    if q in m.cfg.kvSources {
      OwnAgrees(m.cfg, p, u, r, us, s, q);
      OwnCache(m, u, c, r, s, step, p.start, q);
    }
    OthersDone(m.cfg, p, us, r, s, s1, q);
  }

  lemma OwnAgrees(cfg: Config, p: Plan, u: State, r: State, us: State, s: State, q: nat)
    requires CachesAgree(cfg, p, u, r) && CachesDone(cfg, p, us, r, s, q) && q in p.needs && q in cfg.kvSources
    requires ShadowServed(cfg, p, q)
    ensures u.Cache(q) == r.Cache(q) == s.Cache(q) && q < p.start
  {
    assert CacheIs(p, us, r, s, q, q);
  }

  lemma OthersDone(cfg: Config, p: Plan, us: State, r: State, s: State, s1: State, q: nat)
    requires CachesDone(cfg, p, us, r, s, q) && q in p.needs
    requires forall t: nat :: t != q ==> s1.Cache(t) == s.Cache(t)
    requires q in cfg.kvSources ==> s1.Cache(q) == us.Cache(q)
    ensures CachesDone(cfg, p, us, r, s1, q + 1)
  {
    forall t: nat | t in cfg.kvSources && Reads(p, t)
      ensures CacheIs(p, us, r, s1, q + 1, t)
    {
      assert CacheIs(p, us, r, s, q, t);
    }
  }

  /** Without its op the indexer may only overwrite top-k rows. */
  lemma QuietIndexer(m: Model, q: nat, x: int, s: State, step: Step)
    requires s.Shaped(m.layers, m.rows)
    ensures var s1 := m.RunIndexer(q, x, s, step, false);
            s1.kv == s.kv && s1.swa == s.swa && s1.cand == s.cand && s1.Shaped(m.layers, m.rows)
  {
    hide m.TopkRow;
  }

  /** One shadow, in ascending order. */
  lemma ShadowNext(m: Model, p: Plan, u: State, c: Carry, r: State, s: State, step: Step, q: nat)
    requires m.cfg.Valid() && GoodPlan(m.cfg, p) && p.end <= m.layers && q in p.needs
    requires u.Shaped(m.layers, m.rows) && r.Shaped(m.layers, m.rows) && CachesAgree(m.cfg, p, u, r)
    requires ShadowsDone(m, p, m.StateAt(0, p.start, u, c, step), r, s, step.n, q)
    ensures ShadowsDone(m, p, m.StateAt(0, p.start, u, c, step), r,
                        m.Shadow(q, m.InputAt(0, q, u, c, step), s, step, p.needs[q]), step.n, q + 1)
  {
    hide m.StateAt, m.InputAt, m.CarryAt, m.Compress, m.RunIndexer, CachesDone, CachesAgree, GoodPlan;
    ServedShadow(m.cfg, p, q);
    ShadowCache(m, p, u, c, r, s, step, q);
    var x := m.InputAt(0, q, u, c, step);
    CompressOnly(m, q, x, s, step);
    var us, s1 := m.StateAt(0, p.start, u, c, step), m.Compress(q, x, s, step);
    if p.needs[q] {
      KeysDone(m.cfg, p, us, r, s1, q);
      ShadowRows(m, p.start, q, u, c, s1, step);
      KeepsCaches(m.cfg, p, us, r, s1, m.RunIndexer(q, x, s1, step, true), q + 1);
    } else {
      QuietIndexer(m, q, x, s1, step);
      KeepsCaches(m.cfg, p, us, r, s1, m.RunIndexer(q, x, s1, step, false), q + 1);
      NoneBefore(m.cfg, p, q);
    }
  }

  lemma NoneBefore(cfg: Config, p: Plan, q: nat)
    requires GoodPlan(cfg, p) && q in p.needs && !p.needs[q]
    ensures forall t: nat :: t in p.needs && p.needs[t] ==> q < t
  {
    forall t: nat | t in p.needs && p.needs[t]
      ensures q < t
    {
      assert ShadowServed(cfg, p, t);
    }
  }

  lemma ServedShadow(cfg: Config, p: Plan, q: nat)
    requires GoodPlan(cfg, p) && q in p.needs
    ensures ShadowServed(cfg, p, q) && p.start < p.end
  {
  }

  /** A shadow with top-k reads keys that are already caught up. */
  lemma KeysDone(cfg: Config, p: Plan, us: State, r: State, s: State, q: nat)
    requires q in p.needs && p.needs[q] && ShadowServed(cfg, p, q) && CachesDone(cfg, p, us, r, s, q + 1)
    ensures s.Cache(cfg.KvSrc(q)) == us.Cache(cfg.KvSrc(q))
  {
    assert CacheIs(p, us, r, s, q + 1, cfg.KvSrc(q));
  }

  lemma KeepsCaches(cfg: Config, p: Plan, us: State, r: State, s: State, s': State, k: nat)
    requires s'.kv == s.kv && CachesDone(cfg, p, us, r, s, k)
    ensures CachesDone(cfg, p, us, r, s', k)
  {
    forall t: nat | t in cfg.kvSources && Reads(p, t)
      ensures CacheIs(p, us, r, s', k, t)
    {
      assert CacheIs(p, us, r, s, k, t);
    }
  }

  /** All shadows with ids below k, in ascending order. */
  lemma {:induction false} ShadowsRun(m: Model, p: Plan, u: State, c: Carry, r: State, src: map<nat, int>, step: Step,
                                      k: nat)
    requires m.cfg.Valid() && GoodPlan(m.cfg, p) && p.end <= m.layers
    requires u.Shaped(m.layers, m.rows) && r.Shaped(m.layers, m.rows) && CachesAgree(m.cfg, p, u, r)
    requires forall q :: q in p.needs ==> q in src && src[q] == m.InputAt(0, q, u, c, step)
    requires ShadowsDone(m, p, m.StateAt(0, p.start, u, c, step), r, r, step.n, 0)
    ensures ShadowsDone(m, p, m.StateAt(0, p.start, u, c, step), r,
                        m.RunShadows(Ascending(p.needs.Keys, k), p.needs, src, r, step), step.n, k)
    decreases k
  {
    hide m.StateAt, m.InputAt, m.CarryAt, m.Shadow, GoodPlan, ShadowsDone, CachesAgree;
    if k > 0 {
      ShadowsRun(m, p, u, c, r, src, step, k - 1);
      var ids := Ascending(p.needs.Keys, k);
      if k - 1 in p.needs {
        assert ids[..|ids| - 1] == Ascending(p.needs.Keys, k - 1);
        ShadowNext(m, p, u, c, r, m.RunShadows(ids[..|ids| - 1], p.needs, src, r, step), step, k - 1);
      } else {
        assert ids == Ascending(p.needs.Keys, k - 1);
        SkipShadow(m, p, m.StateAt(0, p.start, u, c, step), r, m.RunShadows(ids, p.needs, src, r, step), step.n, k - 1);
      }
    }
  }

  lemma SkipShadow(m: Model, p: Plan, us: State, r: State, s: State, n: nat, k: nat)
    requires ShadowsDone(m, p, us, r, s, n, k) && k !in p.needs
    ensures ShadowsDone(m, p, us, r, s, n, k + 1)
  {
    forall t: nat | t in m.cfg.kvSources && Reads(p, t)
      ensures CacheIs(p, us, r, s, k + 1, t)
    {
      assert CacheIs(p, us, r, s, k, t);
    }
  }

  // ----- one rank

  /** The uncut stack of one step starts from the embedding. */
  function Start(m: Model, step: Step): Carry { Embedded(m.net.embed(step)) }

  /** What a rank receives is what the uncut stack has at its first layer. */
  ghost predicate WireGood(m: Model, p: Plan, u: State, step: Step, w: Wire) {
    && w.h == m.Collapse(m.CarryAt(0, p.start, u, Start(m, step), step))
    && w.pre == m.PreOf(m.CarryAt(0, p.start, u, Start(m, step), step))
    && (forall q :: q in p.recvSet ==> q in w.src && w.src[q] == m.InputAt(0, q, u, Start(m, step), step))
    && (p.recvCand ==> w.cand == Take(m.StateAt(0, p.start, u, Start(m, step), step).cand, step.n))
  }

  lemma CandReceived(buf: seq<int>, like: seq<int>, n: nat)
    requires |buf| == |like|
    ensures var got := Take(like, n); RowsAgree(like, Put(buf, n, (j: nat) => if j < |got| then got[j] else 0), n)
  {
  }

  lemma AgreesDone(m: Model, p: Plan, u: State, c: Carry, r: State, r1: State, step: Step)
    requires GoodPlan(m.cfg, p) && p.end <= m.layers && Agrees(m, p, u, r)
    requires r1.Shaped(m.layers, m.rows) && r1.kv == r.kv && r1.swa == r.swa
    requires (p.start <= m.cfg.candSource ==> r1.cand == r.cand)
    requires m.cfg.HasCand() && m.cfg.candSource < p.start ==>
              RowsAgree(m.StateAt(0, p.start, u, c, step).cand, r1.cand, step.n)
    ensures ShadowsDone(m, p, m.StateAt(0, p.start, u, c, step), r1, r1, step.n, 0) && CachesAgree(m.cfg, p, u, r1)
  {
    hide m.StateAt, m.InputAt, GoodPlan;
    CachesAt(m, p.start, u, c, step);
    var us := m.StateAt(0, p.start, u, c, step);
    forall t: nat | t in m.cfg.kvSources && Reads(p, t)
      ensures CacheIs(p, us, r1, r1, 0, t) && u.Cache(t) == r1.Cache(t)
    {
      assert u.Cache(t) == r.Cache(t);
    }
  }

  /** When all shadows have run the rank agrees with the uncut stack at its first layer. */
  lemma DoneTracks(m: Model, p: Plan, u: State, c: Carry, r: State, s: State, step: Step)
    requires m.cfg.Valid() && GoodPlan(m.cfg, p) && p.end <= m.layers && Agrees(m, p, u, r)
    requires ShadowsDone(m, p, m.StateAt(0, p.start, u, c, step), r, s, step.n, p.end)
    ensures Tracks(m, p, p.start, m.StateAt(0, p.start, u, c, step), s, step.n)
  {
    hide m.StateAt, m.InputAt;
    CachesAt(m, p.start, u, c, step);
    RowsAt(m, 0, p.start, u, c, step);
    AtNext(m, 0, 0, u, c, step);
    var us := m.StateAt(0, p.start, u, c, step);
    forall t: nat | t in m.cfg.kvSources && Reads(p, t)
      ensures us.Cache(t) == s.Cache(t)
    {
      assert CacheIs(p, us, r, s, p.end, t);
      if t in p.needs { assert ShadowServed(m.cfg, p, t); }
    }
    if Wants(m.cfg, p.start, p.end) { WantedTopk(m.cfg, p); }
  }

  lemma WantedTopk(cfg: Config, p: Plan)
    requires cfg.Valid() && GoodPlan(cfg, p) && Wants(cfg, p.start, p.end)
    ensures exists t: nat :: t in p.needs && p.needs[t] && t < p.end
  {
    var q: nat :| p.start <= q < p.end && cfg.Compressed(q) && cfg.IdxSrc(q) < p.start;
    assert Served(cfg, p, q);
    KvBelowIdx(cfg, q);
    var t: nat := cfg.IdxSrc(q);
    assert t in p.needs && p.needs[t] && t < p.end;
  }

  lemma RankPrepared(m: Model, p: Plan, u: State, r: State, w: Wire, step: Step)
    requires m.cfg.Valid() && GoodPlan(m.cfg, p) && p.end <= m.layers && Agrees(m, p, u, r)
    requires WireGood(m, p, u, step, w)
    requires p.needs.Keys <= p.recvSet
    ensures Tracks(m, p, p.start, m.StateAt(0, p.start, u, Start(m, step), step),
                   m.Prepared(p, r, Some(w), step), step.n)
  {
    hide m.StateAt, m.InputAt, m.CarryAt, m.RunShadows, GoodPlan, ShadowsDone, CachesAgree, Tracks;
    var c := Start(m, step);
    var r1 := if p.recvCand then r.(cand := Put(r.cand, step.n, (j: nat) => if j < |w.cand| then w.cand[j] else 0))
              else r;
    CachesAt(m, p.start, u, c, step);
    CandReceived(r.cand, m.StateAt(0, p.start, u, c, step).cand, step.n);
    RecvCandIs(m.cfg, p);
    AgreesDone(m, p, u, c, r, r1, step);
    ShadowsRun(m, p, u, c, r1, w.src, step, p.end);
    StillAgrees(m, p, u, r, r1);
    DoneTracks(m, p, u, c, r1, m.RunShadows(p.ShadowIds(), p.needs, w.src, r1, step), step);
  }

  lemma RecvCandIs(cfg: Config, p: Plan)
    requires GoodPlan(cfg, p)
    ensures p.recvCand == (cfg.HasCand() && p.start > cfg.candSource)
  {
  }

  lemma StillAgrees(m: Model, p: Plan, u: State, r: State, r1: State)
    requires Agrees(m, p, u, r) && CachesAgree(m.cfg, p, u, r1)
    requires r1.Shaped(m.layers, m.rows) && r1.swa == r.swa && (p.start <= m.cfg.candSource ==> r1.cand == r.cand)
    ensures Agrees(m, p, u, r1)
  {
    hide CachesAgree;
  }

  /** A rank's first layer misses the injection only when it is an engram layer. */
  predicate EngramKept(m: Model, start: nat, step: Step) { start == 0 || !(m.net.hasEngram(start) && step.hashed) }

  lemma MidCarry(m: Model, l: nat, u: State, c: Carry, step: Step)
    requires l > 0
    ensures m.CarryAt(0, l, u, c, step).Mid?
  {
    hide m.Feed, m.StateAt, m.Attend;
  }

  /** Closing the residual before the cut and opening it after is what the uncut layer does itself. */
  lemma FeedReceived(m: Model, l: nat, u: State, c: Carry, step: Step)
    requires l > 0 && EngramKept(m, l, step)
    ensures var carry := m.CarryAt(0, l, u, c, step);
            m.Feed(l, carry, step) == m.Feed(l, Received(m.Collapse(carry), m.PreOf(carry)), step)
  {
    MidCarry(m, l, u, c, step);
    hide m.CarryAt;
  }

  /** The wire a rank gets, if any. */
  ghost predicate InputGood(m: Model, p: Plan, u: State, step: Step, win: Option<Wire>) {
    if win.None? then p.start == 0 && p.needs == map[] else p.start > 0 && WireGood(m, p, u, step, win.value)
  }

  lemma RankStarts(m: Model, p: Plan, u: State, r: State, win: Option<Wire>, step: Step)
    requires m.cfg.Valid() && GoodPlan(m.cfg, p) && p.end <= m.layers && Agrees(m, p, u, r)
    requires InputGood(m, p, u, step, win)
    requires p.needs.Keys <= p.recvSet && EngramKept(m, p.start, step)
    ensures Tracks(m, p, p.start, m.StateAt(0, p.start, u, Start(m, step), step),
                   m.Prepared(p, r, win, step), step.n)
    ensures m.Feed(p.start, m.CarryAt(0, p.start, u, Start(m, step), step), step)
            == m.Feed(p.start, m.FirstCarry(win, step), step)
  {
    hide m.StateAt, m.CarryAt, m.InputAt, m.Feed, GoodPlan, Tracks, m.Prepared;
    AtNext(m, 0, 0, u, Start(m, step), step);
    if win.None? {
      NothingWanted(m, p, u, r, step);
    } else {
      RankPrepared(m, p, u, r, win.value, step);
      FeedReceived(m, p.start, u, Start(m, step), step);
    }
  }

  lemma NothingWanted(m: Model, p: Plan, u: State, r: State, step: Step)
    requires m.cfg.Valid() && p.start == 0 && p.needs == map[] && Agrees(m, p, u, r)
    ensures Tracks(m, p, 0, u, m.Prepared(p, r, None, step), step.n)
  {
    forall q: nat | m.cfg.Compressed(q)
      ensures m.cfg.IdxSrc(q) >= 0
    {
      KvBelowIdx(m.cfg, q);
    }
  }

  /** After its layers a rank agrees with the uncut stack's state at the end of the step. */
  lemma AgreesAfter(m: Model, p: Plan, u: State, c: Carry, s: State, step: Step)
    requires GoodPlan(m.cfg, p) && p.end <= m.layers && u.Shaped(m.layers, m.rows)
    requires Tracks(m, p, p.end, m.StateAt(0, p.end, u, c, step), s, step.n)
    ensures Agrees(m, p, m.StateAt(0, m.layers, u, c, step), s)
  {
    hide m.StateAt, m.InputAt, Wants;
    CachesAt(m, p.end, u, c, step);
    CachesAt(m, m.layers, u, c, step);
    RowsAt(m, p.end, m.layers, u, c, step);
    var ue, ul := m.StateAt(0, p.end, u, c, step), m.StateAt(0, m.layers, u, c, step);
    forall t: nat | t in m.cfg.kvSources && Reads(p, t)
      ensures ul.Cache(t) == s.Cache(t)
    {
      assert ue.Cache(t) == s.Cache(t);
      if t in p.needs { assert ShadowServed(m.cfg, p, t); }
    }
  }

  /** The plan of the next rank. */
  predicate Next(p: Plan, q: Plan) { q.start == p.end && q.recvSet == p.shipSet && q.recvCand == p.shipCand }

  /** One rank: its state stays in agreement, its output is the uncut stream, and its wire serves the next rank. */
  lemma RankSteps(m: Model, p: Plan, u: State, r: State, win: Option<Wire>, step: Step)
    requires m.cfg.Valid() && GoodPlan(m.cfg, p) && p.end <= m.layers && Agrees(m, p, u, r)
    requires InputGood(m, p, u, step, win)
    requires p.needs.Keys <= p.recvSet && EngramKept(m, p.start, step)
    ensures Agrees(m, p, m.StateAt(0, m.layers, u, Start(m, step), step), m.RankState(p, r, win, step))
    ensures var w := m.RankWire(p, r, win, step);
            && w.h == m.Collapse(m.CarryAt(0, p.end, u, Start(m, step), step))
            && w.pre == m.PreOf(m.CarryAt(0, p.end, u, Start(m, step), step))
  {
    hide m.StateAt, m.CarryAt, m.InputAt, m.Feed, GoodPlan, Tracks, m.Prepared, m.Collapse, m.PreOf;
    RankStarts(m, p, u, r, win, step);
    NonEmpty(m.cfg, p);
    LayersTrack(m, p, p.end, u, Start(m, step), m.Prepared(p, r, win, step), m.FirstCarry(win, step), step);
    AgreesAfter(m, p, u, Start(m, step), m.RankState(p, r, win, step), step);
  }

  lemma NonEmpty(cfg: Config, p: Plan)
    requires GoodPlan(cfg, p)
    ensures p.start < p.end
  {
  }

  /** Every source the rank ships comes with exactly that layer's attention input. */
  lemma WireServes(m: Model, p: Plan, q: Plan, u: State, r: State, win: Option<Wire>, step: Step)
    requires m.cfg.Valid() && GoodPlan(m.cfg, p) && p.end <= m.layers && Agrees(m, p, u, r)
    requires InputGood(m, p, u, step, win)
    requires p.needs.Keys <= p.recvSet && EngramKept(m, p.start, step) && Next(p, q)
    requires (forall s :: s in p.shipSet ==> s < p.end)
    requires (forall s :: s in p.shipSet && s < p.start ==> s in p.recvSet)
    requires p.shipCand ==> m.cfg.HasCand() && m.cfg.candSource < p.end
    ensures WireGood(m, q, u, step, m.RankWire(p, r, win, step))
  {
    RankSteps(m, p, u, r, win, step);
    hide m.StateAt, m.CarryAt, m.InputAt, m.Feed, GoodPlan, m.Prepared, m.Collapse, m.PreOf;
    hide CachesAgree, WindowsAgree, Wants;
    RankStarts(m, p, u, r, win, step);
    NonEmpty(m.cfg, p);
    var st, c := m.Prepared(p, r, win, step), m.FirstCarry(win, step);
    LayersTrack(m, p, p.end, u, Start(m, step), st, c, step);
    var w := m.RankWire(p, r, win, step);
    forall s: nat | s in p.shipSet
      ensures s in w.src && w.src[s] == m.InputAt(0, s, u, Start(m, step), step)
    {
      if p.start <= s { OwnedInput(m, p, s, u, st, c, step); }
    }
  }

  lemma OwnedInput(m: Model, p: Plan, l: nat, u: State, s: State, cs: Carry, step: Step)
    requires m.cfg.Valid() && GoodPlan(m.cfg, p) && p.start <= l < p.end <= m.layers
    requires Tracks(m, p, p.start, m.StateAt(0, p.start, u, Start(m, step), step), s, step.n)
    requires m.Feed(p.start, m.CarryAt(0, p.start, u, Start(m, step), step), step) == m.Feed(p.start, cs, step)
    ensures m.InputAt(p.start, l, s, cs, step) == m.InputAt(0, l, u, Start(m, step), step)
  {
    hide m.StateAt, m.CarryAt, m.InputAt, m.Feed, GoodPlan, Tracks;
    LayersTrack(m, p, l, u, Start(m, step), s, cs, step);
    AtNext(m, 0, l, u, Start(m, step), step);
    AtNext(m, p.start, l, s, cs, step);
  }
}
