/** Which kv and index sources a pipeline rank shadows, receives, forwards and ships. */
module ShadowPlan {

  /** The layer structure: compress ratio by layer, and which layers own a compressed cache or an indexer. */
  datatype Config = Config(kvSources: seq<nat>, idxSources: seq<nat>, ratios: seq<nat>, candSource: int,
                           candBlocks: nat) {

    predicate Compressed(layer: nat) { layer < |ratios| && ratios[layer] != 0 }

    predicate HasCand() { candSource >= 0 && candBlocks > 0 }

    /** The latest kv source at or below the layer, -1 if there is none. */
    function KvSrc(layer: nat): (s: int)
      ensures LatestIs(kvSources, layer, s)
    {
      Latest(kvSources, layer)
    }

    function IdxSrc(layer: nat): (s: int)
      ensures LatestIs(idxSources, layer, s)
    {
      Latest(idxSources, layer)
    }

    /** kv sources are index sources, sources are compressed, and every compressed layer has both sources. */
    ghost predicate Valid() {
      && (forall s :: s in kvSources ==> s in idxSources)
      && (forall s :: s in idxSources ==> Compressed(s))
      && (forall layer: nat :: Compressed(layer) ==> KvSrc(layer) >= 0)
    }
  }

  predicate LatestIs(ids: seq<nat>, layer: nat, s: int) {
    && -1 <= s <= layer && (s >= 0 ==> s in ids)
    && forall i :: i in ids && i <= layer ==> i <= s
  }

  function Latest(ids: seq<nat>, layer: nat): (s: int)
    ensures LatestIs(ids, layer, s)
  {
    if |ids| == 0 then -1
    else
      var rest := Latest(ids[1..], layer);
      assert ids == [ids[0]] + ids[1..];
      if rest < ids[0] <= layer then ids[0] else rest
  }

  lemma LatestUnique(ids: seq<nat>, layer: nat, s: int, t: int)
    requires LatestIs(ids, layer, s) && LatestIs(ids, layer, t)
    ensures s == t
  {
  }

  /** The layer is a consumer whose kv source lies before start. */
  predicate KvNeed(cfg: Config, start: nat, layer: nat, s: nat) {
    cfg.Compressed(layer) && cfg.KvSrc(layer) == s < start
  }

  predicate TopkNeed(cfg: Config, start: nat, layer: nat, s: nat) {
    cfg.Compressed(layer) && cfg.IdxSrc(layer) == s < start
  }

  ghost predicate NeedsKv(cfg: Config, start: nat, end: nat, s: nat) {
    exists layer: nat :: start <= layer < end && KvNeed(cfg, start, layer, s)
  }

  ghost predicate NeedsTopk(cfg: Config, start: nat, end: nat, s: nat) {
    exists layer: nat :: start <= layer < end && TopkNeed(cfg, start, layer, s)
  }

  /** One layer's entries in the needs: a kv need is recorded only if nothing is, an index need always. */
  function AddNeeds(cfg: Config, start: nat, layer: nat, needed: map<nat, bool>): map<nat, bool> {
    if !cfg.Compressed(layer) then needed
    else
      var k, i := cfg.KvSrc(layer), cfg.IdxSrc(layer);
      var n1 := if 0 <= k < start && k !in needed then needed[k := false] else needed;
      if 0 <= i < start then n1[i := true] else n1
  }

  function Needs(cfg: Config, start: nat, end: nat): map<nat, bool>
    decreases end
  {
    if end <= start then map[] else AddNeeds(cfg, start, end - 1, Needs(cfg, start, end - 1))
  }

  lemma AddNeedsExact(cfg: Config, start: nat, layer: nat, needed: map<nat, bool>, s: nat)
    ensures var n := AddNeeds(cfg, start, layer, needed);
            && (s in n <==> s in needed || KvNeed(cfg, start, layer, s) || TopkNeed(cfg, start, layer, s))
            && (s in n ==> n[s] == ((s in needed && needed[s]) || TopkNeed(cfg, start, layer, s)))
  {
  }

  /** A source is needed exactly when some local compressed layer reads its cache or its top-k, and its
      top-k is recomputed exactly in the second case. */
  lemma {:induction false} NeedsExact(cfg: Config, start: nat, end: nat, s: nat)
    ensures s in Needs(cfg, start, end) <==> NeedsKv(cfg, start, end, s) || NeedsTopk(cfg, start, end, s)
    ensures s in Needs(cfg, start, end) ==> Needs(cfg, start, end)[s] == NeedsTopk(cfg, start, end, s)
    ensures s in Needs(cfg, start, end) ==> s < start
    decreases end
  {
    if end > start {
      NeedsExact(cfg, start, end - 1, s);
      AddNeedsExact(cfg, start, end - 1, Needs(cfg, start, end - 1), s);
      NeedStep(cfg, start, end - 1, s);
    }
  }

  lemma NeedStep(cfg: Config, start: nat, last: nat, s: nat)
    requires start <= last
    ensures NeedsKv(cfg, start, last + 1, s) <==> NeedsKv(cfg, start, last, s) || KvNeed(cfg, start, last, s)
    ensures NeedsTopk(cfg, start, last + 1, s) <==> NeedsTopk(cfg, start, last, s) || TopkNeed(cfg, start, last, s)
  {
    hide KvNeed, TopkNeed;
  }

  /** shadow_needs_for: the loop over the rank's layers. */
  method ShadowNeedsFor(cfg: Config, start: nat, end: nat) returns (needed: map<nat, bool>)
    ensures needed == Needs(cfg, start, end)
  {
    needed := map[];
    var layer := start;
    while layer < end
      invariant layer <= end || layer == start
      invariant needed == Needs(cfg, start, layer)
    {
      if cfg.Compressed(layer) {
        var k := cfg.KvSrc(layer);
        if 0 <= k < start && k !in needed { needed := needed[k := false]; }
        var i := cfg.IdxSrc(layer);
        if 0 <= i < start { needed := needed[i := true]; }
      }
      layer := layer + 1;
    }
  }

  /** The kv source just before start is the only one a rank can shadow for its cache, the index source just
      before start the only one for its top-k, and it is the later of the two. */
  lemma AtMostTwoShadows(cfg: Config, start: nat, end: nat, s: nat)
    requires cfg.Valid() && s in Needs(cfg, start, end)
    ensures start > 0 && (s == cfg.KvSrc(start - 1) || s == cfg.IdxSrc(start - 1))
    ensures Needs(cfg, start, end)[s] ==> s == cfg.IdxSrc(start - 1)
    ensures !Needs(cfg, start, end)[s] ==> s == cfg.KvSrc(start - 1)
    ensures cfg.KvSrc(start - 1) <= cfg.IdxSrc(start - 1)
  {
    NeedsExact(cfg, start, end, s);
    if NeedsTopk(cfg, start, end, s) {
      var layer: nat :| start <= layer < end && TopkNeed(cfg, start, layer, s);
      LatestBefore(cfg.idxSources, start, layer, s);
    } else {
      var layer: nat :| start <= layer < end && KvNeed(cfg, start, layer, s);
      LatestBefore(cfg.kvSources, start, layer, s);
    }
    var k := cfg.KvSrc(start - 1);
    assert k >= 0 ==> k in cfg.idxSources;
  }

  lemma LatestBefore(ids: seq<nat>, start: nat, layer: nat, s: nat)
    requires LatestIs(ids, layer, s) && s < start <= layer
    ensures s == Latest(ids, start - 1)
  {
    LatestUnique(ids, start - 1, s, Latest(ids, start - 1));
  }

  // ----- the plan of one rank

  type Range = (nat, nat)

  /** Non-empty contiguous ranges covering [0, layers). */
  ghost predicate Legal(ranges: seq<Range>, layers: nat) {
    && |ranges| > 0 && ranges[0].0 == 0 && ranges[|ranges| - 1].1 == layers
    && (forall r :: 0 <= r < |ranges| ==> ranges[r].0 < ranges[r].1)
    && forall r, q :: 0 <= r && q == r + 1 && q < |ranges| ==> ranges[q].0 == ranges[r].1
  }

  lemma {:induction false} LegalOrder(ranges: seq<Range>, layers: nat, r: nat, q: nat)
    requires Legal(ranges, layers) && r < q < |ranges|
    ensures ranges[r].1 <= ranges[q].0
    decreases q
  {
    if r + 1 < q {
      LegalOrder(ranges, layers, r, q - 1);
    }
    assert ranges[q].0 == ranges[q - 1].1;
  }

  /** The members of ids below n, ascending. */
  function Ascending(ids: set<nat>, n: nat): seq<nat> {
    if n == 0 then [] else Ascending(ids, n - 1) + if n - 1 in ids then [n - 1] else []
  }

  lemma {:induction false} AscendingExact(ids: set<nat>, n: nat)
    ensures forall s: nat :: s in Ascending(ids, n) <==> s in ids && s < n
    ensures forall a, b :: 0 <= a < b < |Ascending(ids, n)| ==> Ascending(ids, n)[a] < Ascending(ids, n)[b]
  {
    if n > 0 {
      AscendingExact(ids, n - 1);
      var rest := Ascending(ids, n - 1);
      assert forall a :: 0 <= a < |rest| ==> rest[a] in rest;
    }
  }

  lemma AscendingSame(ids: set<nat>, more: set<nat>, n: nat)
    requires forall s: nat :: s < n ==> (s in ids <==> s in more)
    ensures Ascending(ids, n) == Ascending(more, n)
  {
  }

  datatype Plan = Plan(start: nat, end: nat, needs: map<nat, bool>, shipSet: set<nat>, recvSet: set<nat>,
                       shipCand: bool, recvCand: bool) {
    /** All sources of a plan lie below its end. */
    function ShadowIds(): seq<nat> { Ascending(needs.Keys, end) }
    function ShipIds(): seq<nat> { Ascending(shipSet, end) }
    function RecvIds(): seq<nat> { Ascending(recvSet, end) }
    function OwnedSet(): set<nat> { set s | s in shipSet && Owned(s) }
    function OwnedIds(): seq<nat> { Ascending(OwnedSet(), end) }
    predicate Owned(s: nat) { s in shipSet && start <= s }
  }

  lemma OwnedExact(p: Plan)
    ensures forall s: nat :: s in p.OwnedIds() <==> p.Owned(s) && s < p.end
  {
    AscendingExact(p.OwnedSet(), p.end);
  }

  /** The sources the ranks from q on shadow. */
  function NeedsFrom(cfg: Config, ranges: seq<Range>, q: nat): set<nat>
    decreases |ranges| - q
  {
    if q >= |ranges| then {} else Needs(cfg, ranges[q].0, ranges[q].1).Keys + NeedsFrom(cfg, ranges, q + 1)
  }

  predicate LaterHolds(ranges: seq<Range>, r: nat, layer: int) {
    exists q :: r < q < |ranges| && ranges[q].1 > layer
  }

  function MakePlan(cfg: Config, ranges: seq<Range>, r: nat): (p: Plan)
    requires r < |ranges|
    ensures p.start == ranges[r].0 && p.end == ranges[r].1
  {
    var (start, end) := ranges[r];
    var needs := if r > 0 then Needs(cfg, start, end) else map[];
    var later := NeedsFrom(cfg, ranges, r + 1);
    var ship := set s | s in later && s < end;
    Plan(start, end, needs, ship, needs.Keys + (set s | s in ship && s < start),
         cfg.HasCand() && cfg.candSource < end && LaterHolds(ranges, r, cfg.candSource + 1),
         cfg.HasCand() && start > cfg.candSource)
  }

  /** Rank r ships exactly the sources rank r + 1 receives, and candidates likewise. */
  lemma ShipMatchesRecv(cfg: Config, ranges: seq<Range>, layers: nat, r: nat)
    requires Legal(ranges, layers) && r + 1 < |ranges|
    ensures MakePlan(cfg, ranges, r).shipSet == MakePlan(cfg, ranges, r + 1).recvSet
    ensures MakePlan(cfg, ranges, r).ShipIds() == MakePlan(cfg, ranges, r + 1).RecvIds()
    ensures MakePlan(cfg, ranges, r).shipCand == MakePlan(cfg, ranges, r + 1).recvCand
  {
    var p, q := MakePlan(cfg, ranges, r), MakePlan(cfg, ranges, r + 1);
    assert ranges[r + 1].0 == ranges[r].1;
    forall s: nat
      ensures s in p.shipSet <==> s in q.recvSet
    {
      NeedsExact(cfg, q.start, q.end, s);
    }
    assert p.shipSet == q.recvSet;
    AscendingSame(p.shipSet, q.recvSet, p.end);
    NothingPast(q.recvSet, p.end, q.end);
    assert p.shipCand == q.recvCand by {
      assert LegalRange(ranges, r + 1);
    }
  }

  predicate LegalRange(ranges: seq<Range>, r: nat) { r < |ranges| && ranges[r].0 < ranges[r].1 }

  lemma {:induction false} NothingPast(ids: set<nat>, n: nat, m: nat)
    requires n <= m && forall s :: s in ids ==> s < n
    ensures Ascending(ids, m) == Ascending(ids, n)
    decreases m
  {
    if n < m { NothingPast(ids, n, m - 1); }
  }

  /** The first rank receives nothing and the last ships nothing. */
  lemma EndsAreQuiet(cfg: Config, ranges: seq<Range>, layers: nat)
    requires Legal(ranges, layers)
    ensures var p := MakePlan(cfg, ranges, 0); p.recvSet == {} && p.needs == map[] && !p.recvCand
    ensures var p := MakePlan(cfg, ranges, |ranges| - 1); p.shipSet == {} && !p.shipCand
  {
  }

  /** What rank r declares for dummy runs: the received sources, and candidates if it ships or receives them. */
  predicate DeclaresCand(p: Plan) { p.shipCand || p.recvCand }

  /** The declared candidates are what the previous rank sends, except on the rank that owns the candidate
      source and still has a rank after it: there nothing is sent. */
  lemma DeclaredIsSent(cfg: Config, ranges: seq<Range>, layers: nat, r: nat)
    requires Legal(ranges, layers) && 0 < r < |ranges|
    ensures var p := MakePlan(cfg, ranges, r);
            DeclaresCand(p) == MakePlan(cfg, ranges, r - 1).shipCand
            <==> !(cfg.HasCand() && p.start <= cfg.candSource < p.end && r + 1 < |ranges|)
  {
    ShipMatchesRecv(cfg, ranges, layers, r - 1);
    if r + 1 < |ranges| { ShipMatchesRecv(cfg, ranges, layers, r); }
  }

  /** Three ranks of one layer with the candidate source in the middle: the middle rank declares candidates that the
      first one does not send. */
  lemma DeclaredNotSent()
    ensures var cfg := Config([0], [0, 1], [1, 1, 1], 1, 1);
            var ranges: seq<Range> := [(0, 1), (1, 2), (2, 3)];
            && cfg.Valid() && Legal(ranges, 3)
            && DeclaresCand(MakePlan(cfg, ranges, 1)) && !MakePlan(cfg, ranges, 0).shipCand
  {
    var cfg := Config([0], [0, 1], [1, 1, 1], 1, 1);
    var ranges: seq<Range> := [(0, 1), (1, 2), (2, 3)];
    ThreeLayers(cfg);
    hide Needs, NeedsFrom, Latest, Ascending, LatestIs, TopkNeed, KvNeed, cfg.Valid;
    assert 1 < 2 < |ranges| && ranges[2].1 > 2;
    assert LaterHolds(ranges, 1, 2);
  }

  lemma ThreeLayers(cfg: Config)
    requires cfg == Config([0], [0, 1], [1, 1, 1], 1, 1)
    ensures cfg.Valid()
  {
  }

  /** The plan object. */
  class PPShadowPlan {
    const start: nat
    const end: nat
    var shadowNeeds: map<nat, bool>
    var shadowIds: seq<nat>
    var shipIds: seq<nat>
    var ownedShipIds: seq<nat>
    var recvIds: seq<nat>
    var shipCand: bool
    var recvCand: bool

    ghost predicate Follows(p: Plan)
      reads this
    {
      && start == p.start && end == p.end && shadowNeeds == p.needs
      && shadowIds == p.ShadowIds() && shipIds == p.ShipIds() && recvIds == p.RecvIds()
      && ownedShipIds == p.OwnedIds()
      && shipCand == p.shipCand && recvCand == p.recvCand
    }

    constructor (cfg: Config, ranges: seq<Range>, rank: nat)
      requires rank < |ranges|
      ensures Follows(MakePlan(cfg, ranges, rank))
    {
      hide Ascending, Needs, NeedsFrom, LaterHolds;
      var (start, end) := ranges[rank];
      this.start, this.end := start, end;
      var needs: map<nat, bool> := map[];
      if rank > 0 { needs := ShadowNeedsFor(cfg, start, end); }
      var laterNeeds := CollectLater(cfg, ranges, rank + 1);
      var ship := set s | s in laterNeeds && s < end;
      shadowNeeds := needs;
      shadowIds := Ascending(needs.Keys, end);
      shipIds := Ascending(ship, end);
      var owned := set s | s in ship && start <= s < end;
      ghost var p := MakePlan(cfg, ranges, rank);
      assert p.shipSet == ship;
      AscendingSame(owned, p.OwnedSet(), end);
      ownedShipIds := Ascending(owned, end);
      recvIds := Ascending(needs.Keys + (set s | s in ship && s < start), end);
      shipCand := cfg.HasCand() && cfg.candSource < end && LaterHolds(ranges, rank, cfg.candSource + 1);
      recvCand := cfg.HasCand() && start > cfg.candSource;
    }
  }

  /** The union of the shadow ids of the ranks from first on. */
  method CollectLater(cfg: Config, ranges: seq<Range>, first: nat) returns (later: set<nat>)
    ensures later == NeedsFrom(cfg, ranges, first)
  {
    later := {};
    var r := first;
    while r < |ranges|
      invariant later + NeedsFrom(cfg, ranges, r) == NeedsFrom(cfg, ranges, first)
    {
      var needed := ShadowNeedsFor(cfg, ranges[r].0, ranges[r].1);
      later := later + needed.Keys;
      r := r + 1;
    }
  }
}
