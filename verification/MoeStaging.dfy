/** The CPU expert layer's staging buffers and work descriptors, whose cache keys leave out the number of slots. */
module MoeStaging {
  import opened Basics
  import opened Staging

  // ----- what is staged and what the kernel reads

  /** A routed slot: an expert id and its weight. */
  type Choice = (int, real)

  /** A staging set: an identity, its rows, and the slots of each row. */
  datatype MoeBuffers = MoeBuffers(id: nat, rows: nat, slots: nat)

  /** The descriptor a graph replays: where the staging is, and the sizes the kernel is given. */
  datatype MoeWork = MoeWork(buffers: MoeBuffers, rows: nat, slots: nat)

  /** Tensor.copy_ of rows of K slots into rows of some width: equal, or one slot that broadcasts. */
  predicate Fits(width: nat, K: nat) { K == width || K == 1 }

  predicate Shaped(ids: seq<seq<Choice>>, M: nat, K: nat) { |ids| == M && forall t :: 0 <= t < M ==> |ids[t]| == K }

  /** What lands in column c of a staging row of the given width. */
  function Cell(row: seq<Choice>, width: nat, c: nat): Choice
    requires c < width && Fits(width, |row|)
  {
    if |row| == width then row[c] else row[0]
  }

  predicate RowStaged(flat: seq<Choice>, width: nat, t: nat, row: seq<Choice>)
    requires Fits(width, |row|)
  {
    t * width + width <= |flat| && forall c :: 0 <= c < width ==> flat[t * width + c] == Cell(row, width, c)
  }

  /** The flat staging memory after the copy; the rows behind it hold anything. */
  ghost predicate Staged(flat: seq<Choice>, b: MoeBuffers, ids: seq<seq<Choice>>, M: nat, K: nat)
    requires Shaped(ids, M, K) && Fits(b.slots, K)
  {
    |flat| == b.rows * b.slots && forall t :: 0 <= t < M ==> RowStaged(flat, b.slots, t, ids[t])
  }

  /** The kernel indexes the flat memory with its own row length; token t must see exactly its own slots. */
  predicate SeesOwn(flat: seq<Choice>, slots: nat, t: nat, row: seq<Choice>) {
    |row| == slots && t * slots + slots <= |flat| && flat[t * slots..t * slots + slots] == row
  }

  ghost predicate ReadsOwn(flat: seq<Choice>, w: MoeWork, ids: seq<seq<Choice>>)
    requires |ids| == w.rows
  {
    forall t :: 0 <= t < |ids| ==> SeesOwn(flat, w.slots, t, ids[t])
  }

  /** The call is right whatever is routed and whatever the staging held. */
  ghost predicate RightFor(w: MoeWork, K: nat)
    requires Fits(w.buffers.slots, K)
  {
    forall ids, flat :: Shaped(ids, w.rows, K) && Staged(flat, w.buffers, ids, w.rows, K) ==> ReadsOwn(flat, w, ids)
  }

  /** The sizes with which a descriptor serves a call of K slots. */
  predicate Matching(w: MoeWork, K: nat) {
    w.rows == 0 || (w.slots == K && (w.buffers.slots == K || (w.rows == 1 && w.buffers.slots >= 1)))
  }

  /** Token t's routing in the witness. */
  function WitnessToken(t: nat, K: nat): seq<Choice> { seq(K, _ => (t, 0.0)) }

  function Witness(M: nat, K: nat): seq<seq<Choice>> { seq(M, t requires 0 <= t < M => WitnessToken(t, K)) }

  /** Its staging: cell i belongs to row i / width. */
  function WitnessFlat(rows: nat, width: nat): seq<Choice>
    requires width > 0
  {
    seq(rows * width, i => (i / width, 0.0))
  }

  lemma WitnessRow(rows: nat, width: nat, t: nat, K: nat)
    requires width > 0 && t < rows && Fits(width, K)
    ensures RowStaged(WitnessFlat(rows, width), width, t, WitnessToken(t, K))
  {
    var flat := WitnessFlat(rows, width);
    MulOrder(t, rows, width);
    hide WitnessFlat;
    forall c | 0 <= c < width
      ensures flat[t * width + c] == Cell(WitnessToken(t, K), width, c)
    {
      WitnessCell(rows, width, t, c);
    }
  }

  lemma WitnessCell(rows: nat, width: nat, t: nat, c: nat)
    requires c < width && t * width + c < rows * width
    ensures WitnessFlat(rows, width)[t * width + c] == (t, 0.0)
  {
    DivMod(t, width, c);
  }

  lemma WitnessStaged(b: MoeBuffers, M: nat, K: nat)
    requires Fits(b.slots, K) && b.slots > 0 && M <= b.rows
    ensures Staged(WitnessFlat(b.rows, b.slots), b, Witness(M, K), M, K)
  {
    hide RowStaged;
    forall t | 0 <= t < M
      ensures RowStaged(WitnessFlat(b.rows, b.slots), b.slots, t, Witness(M, K)[t])
    {
      WitnessRow(b.rows, b.slots, t, K);
    }
  }

  /** A descriptor serves every routing of K slots exactly if its row length is K and so is the staging's, or the
      single token's only slot is the first of a row. */
  lemma RightExact(w: MoeWork, K: nat)
    requires w.rows <= w.buffers.rows && Fits(w.buffers.slots, K)
    ensures RightFor(w, K) <==> Matching(w, K)
  {
    if Matching(w, K) {
      forall ids, flat | Shaped(ids, w.rows, K) && Staged(flat, w.buffers, ids, w.rows, K)
        ensures ReadsOwn(flat, w, ids)
      {
        MatchingReads(w, K, ids, flat);
      }
    } else {
      Misreads(w, K);
    }
  }

  lemma MatchingReads(w: MoeWork, K: nat, ids: seq<seq<Choice>>, flat: seq<Choice>)
    requires Fits(w.buffers.slots, K) && Matching(w, K)
    requires Shaped(ids, w.rows, K) && Staged(flat, w.buffers, ids, w.rows, K)
    ensures ReadsOwn(flat, w, ids)
  {
    forall t | 0 <= t < |ids|
      ensures SeesOwn(flat, w.slots, t, ids[t])
    {
      assert RowStaged(flat, w.buffers.slots, t, ids[t]);
      if w.buffers.slots == K {
        SameWidth(flat, K, t, ids[t]);
      } else {
        assert flat[t * w.buffers.slots + 0] == Cell(ids[t], w.buffers.slots, 0);
        assert flat[0..1] == ids[0];
      }
    }
  }

  lemma SameWidth(flat: seq<Choice>, K: nat, t: nat, row: seq<Choice>)
    requires |row| == K && RowStaged(flat, K, t, row)
    ensures SeesOwn(flat, K, t, row)
  {
    var base := t * K;
    forall c | 0 <= c < K
      ensures flat[base..base + K][c] == row[c]
    {
      assert flat[t * K + c] == Cell(row, K, c);
    }
  }

  lemma Misreads(w: MoeWork, K: nat)
    requires w.rows <= w.buffers.rows && Fits(w.buffers.slots, K) && !Matching(w, K)
    ensures !RightFor(w, K)
  {
    var b := w.buffers;
    var ids := Witness(w.rows, K);
    var flat := if b.slots > 0 then WitnessFlat(b.rows, b.slots) else [];
    if b.slots > 0 { WitnessStaged(b, w.rows, K); }
    assert Shaped(ids, w.rows, K) && Staged(flat, b, ids, w.rows, K);
    if w.slots == K && b.slots > 0 {
      assert !SeesOwn(flat, 1, 1, ids[1]) by {
        MulOrder(1, b.rows, b.slots);
        WitnessCell(b.rows, b.slots, 0, 1);
        assert flat[1..2][0] == (0, 0.0) && ids[1][0] == (1, 0.0);
      }
    } else {
      assert !SeesOwn(flat, w.slots, 0, ids[0]);
    }
  }

  // ----- call histories

  /** A use of the layer's caches: a forward, or the allocation alone, which is what warming up does. */
  datatype Event = Event(forward: bool, device: int, M: nat, K: nat, capturing: bool)

  function KeyFor(device: int, M: nat): Key { (device, Capacity(M)) }

  /** The slot count of the call that allocated the staging of a key. */
  function FirstStaged(h: seq<Event>, key: Key): Option<nat> {
    if h == [] then None
    else
      var e, before := h[|h| - 1], FirstStaged(h[..|h| - 1], key);
      if before.Some? then before else if KeyFor(e.device, e.M) == key && !e.capturing then Some(e.K) else None
  }

  /** The slot count of the first forward for (device, M) that found staging and fitted it. */
  function FirstServed(h: seq<Event>, key: Key): Option<nat> {
    if h == [] then None
    else
      var e, before := h[|h| - 1], FirstServed(h[..|h| - 1], key);
      if before.Some? then before
      else
        var staged := FirstStaged(h, KeyFor(e.device, e.M));
        if e.forward && (e.device, e.M) == key && staged.Some? && Fits(staged.value, e.K) then Some(e.K) else None
  }

  predicate Agrees(first: Option<nat>, K: nat) { first.Some? ==> first.value == K }

  /** What a caller can check before a call: the first calls on its capacity and on its size had its slot count. Nothing
      can go wrong for no tokens, and a single token may use wider rows. */
  predicate SlotsConstant(h: seq<Event>, device: int, M: nat, K: nat) {
    var staged := FirstStaged(h, KeyFor(device, M));
    M == 0 || (Agrees(FirstServed(h, (device, M)), K) && (Agrees(staged, K) || (M == 1 && staged.value >= 1)))
  }

  /** The caches after a history. */
  ghost predicate StagingOf(h: seq<Event>, staging: map<Key, MoeBuffers>, allocations: nat) {
    && (forall key :: key in staging <==> FirstStaged(h, key).Some?)
    && (forall key :: key in staging ==>
          staging[key].rows == key.1 && staging[key].id < allocations
          && Some(staging[key].slots) == FirstStaged(h, key))
    && forall j, key :: j in staging && key in staging && staging[j].id == staging[key].id ==> j == key
  }

  /** The work of (device, M) points into the one staging set of its capacity, which holds its rows. */
  predicate WorkOf(h: seq<Event>, staging: map<Key, MoeBuffers>, key: Key, w: MoeWork) {
    && KeyFor(key.0, key.1) in staging && w.buffers == staging[KeyFor(key.0, key.1)] && w.buffers.rows >= key.1
    && w.rows == key.1 && Some(w.slots) == FirstServed(h, key)
  }

  ghost predicate WorksOf(h: seq<Event>, staging: map<Key, MoeBuffers>, works: map<Key, MoeWork>) {
    && (forall key :: key in works <==> FirstServed(h, key).Some?)
    && forall key :: key in works ==> WorkOf(h, staging, key, works[key])
  }

  lemma Extended(h: seq<Event>, e: Event, key: Key)
    ensures var h' := h + [e];
            && FirstStaged(h', key) == (if FirstStaged(h, key).Some? then FirstStaged(h, key)
                                        else if KeyFor(e.device, e.M) == key && !e.capturing then Some(e.K) else None)
            && FirstServed(h', key) == (if FirstServed(h, key).Some? then FirstServed(h, key)
                                        else if e.forward && (e.device, e.M) == key
                                        && FirstStaged(h', KeyFor(e.device, e.M)).Some?
                                        && Fits(FirstStaged(h', KeyFor(e.device, e.M)).value, e.K) then Some(e.K)
                                        else None)
  {
    assert (h + [e])[..|h|] == h;
  }

  /** The staging after one more event. */
  lemma StagingStep(h: seq<Event>, e: Event, staging: map<Key, MoeBuffers>, allocations: nat)
    requires StagingOf(h, staging, allocations)
    ensures var key := KeyFor(e.device, e.M);
            if key in staging || e.capturing then StagingOf(h + [e], staging, allocations)
            else StagingOf(h + [e], staging[key := MoeBuffers(allocations, key.1, e.K)], allocations + 1)
    ensures KeyFor(e.device, e.M) in staging <==> FirstStaged(h, KeyFor(e.device, e.M)).Some?
  {
    hide Capacity, FirstStaged, FirstServed;
    var now := KeyFor(e.device, e.M);
    var staging' := if now in staging || e.capturing then staging
                    else staging[now := MoeBuffers(allocations, now.1, e.K)];
    forall key
      ensures key in staging' <==> FirstStaged(h + [e], key).Some?
      ensures key in staging' ==> Some(staging'[key].slots) == FirstStaged(h + [e], key)
    {
      Extended(h, e, key);
    }
  }

  /** A further staging set changes no descriptor. */
  lemma WorksKept(h: seq<Event>, staging: map<Key, MoeBuffers>, works: map<Key, MoeWork>,
                  key: Key, b: MoeBuffers)
    requires WorksOf(h, staging, works)
    ensures key !in staging ==> WorksOf(h, staging[key := b], works)
  {
    hide Capacity, FirstServed;
    if key !in staging {
      forall k | k in works
        ensures WorkOf(h, staging[key := b], k, works[k])
      {
        assert WorkOf(h, staging, k, works[k]);
      }
    }
  }

  /** The works after one more event, whose staging is there if it could be had. */
  lemma WorksStep(h: seq<Event>, e: Event, staging: map<Key, MoeBuffers>, works: map<Key, MoeWork>, allocations: nat)
    requires WorksOf(h, staging, works) && StagingOf(h + [e], staging, allocations)
    ensures var now, key := (e.device, e.M), KeyFor(e.device, e.M);
            if e.forward && key in staging && Fits(staging[key].slots, e.K) && now !in works
            then WorksOf(h + [e], staging, works[now := MoeWork(staging[key], e.M, e.K)])
            else WorksOf(h + [e], staging, works)
  {
    CapacityExact(e.M);
    hide Capacity, FirstStaged, FirstServed;
    var now, own := (e.device, e.M), KeyFor(e.device, e.M);
    var works' := if e.forward && own in staging && Fits(staging[own].slots, e.K) && now !in works
                  then works[now := MoeWork(staging[own], e.M, e.K)] else works;
    forall key
      ensures key in works' <==> FirstServed(h + [e], key).Some?
      ensures key in works' ==> WorkOf(h + [e], staging, key, works'[key])
    {
      Extended(h, e, key);
      if key in works { assert WorkOf(h, staging, key, works[key]); }
    }
  }

  lemma StagedAt(h: seq<Event>, staging: map<Key, MoeBuffers>, allocations: nat, key: Key)
    requires StagingOf(h, staging, allocations)
    ensures key in staging ==> Some(staging[key].slots) == FirstStaged(h, key)
  {
  }

  lemma WorkAt(h: seq<Event>, staging: map<Key, MoeBuffers>, works: map<Key, MoeWork>, key: Key)
    requires WorksOf(h, staging, works) && key in works
    ensures WorkOf(h, staging, key, works[key])
  {
  }

  /** The descriptor of a call is right exactly under the condition on the calls before it. */
  lemma RightByHistory(h: seq<Event>, e: Event, staging: map<Key, MoeBuffers>, allocations: nat, w: MoeWork)
    requires e.forward && StagingOf(h + [e], staging, allocations)
    requires WorkOf(h + [e], staging, (e.device, e.M), w) && Fits(w.buffers.slots, e.K)
    ensures RightFor(w, e.K) <==> SlotsConstant(h, e.device, e.M, e.K)
  {
    hide Capacity, FirstStaged, FirstServed, RightFor;
    Extended(h, e, KeyFor(e.device, e.M));
    Extended(h, e, (e.device, e.M));
    RightExact(w, e.K);
  }

  /** NoStaging: allocation during capture. BadShape: the ids do not fit the staging rows. */
  datatype Call = Ready(work: MoeWork) | NoStaging | BadShape

  /** The layer's two caches, keyed by device and capacity and by device and batch size. */
  class NativeCpuMoe {
    const maxTokens: nat
    var staging: map<Key, MoeBuffers>
    var works: map<Key, MoeWork>
    var allocations: nat
    ghost var history: seq<Event>

    ghost predicate Valid()
      reads this
    {
      StagingOf(history, staging, allocations) && WorksOf(history, staging, works)
    }

    constructor (maxTokens: nat)
      ensures Valid() && history == [] && this.maxTokens == maxTokens
    {
      this.maxTokens := maxTokens;
      staging, works, allocations, history := map[], map[], 0, [];
    }

    /** The staging of a capacity, allocated with the slots of the call that first needs it. */
    method BuffersFor(device: int, M: nat, K: nat, capturing: bool, ghost forward: bool) returns (b: Option<MoeBuffers>)
      requires Valid()
      modifies this`staging, this`allocations
      ensures var now := history + [Event(forward, device, M, K, capturing)];
              && StagingOf(now, staging, allocations) && WorksOf(history, staging, works)
              && (b.None? <==> capturing && FirstStaged(history, KeyFor(device, M)).None?)
              && (b.Some? <==> KeyFor(device, M) in staging) && (b.Some? ==> b.value == staging[KeyFor(device, M)])
    {
      var key := KeyFor(device, M);
      StagingStep(history, Event(forward, device, M, K, capturing), staging, allocations);
      WorksKept(history, staging, works, key, MoeBuffers(allocations, key.1, K));
      hide StagingOf, WorksOf, Capacity, FirstStaged, FirstServed;
      if key !in staging {
        if capturing { return None; }
        staging := staging[key := MoeBuffers(allocations, key.1, K)];
        allocations := allocations + 1;
      }
      b := Some(staging[key]);
    }

    /** One allocation of warming up. */
    method Allocate(device: int, c: nat, K: nat)
      requires Valid()
      modifies this`staging, this`allocations, this`history
      ensures Valid() && history == old(history) + [Event(false, device, c, K, false)]
      ensures FirstStaged(history, KeyFor(device, c)).Some?
    {
      ghost var e := Event(false, device, c, K, false);
      var b := BuffersFor(device, c, K, false, false);
      WorksStep(history, e, staging, works, allocations);
      Extended(history, e, KeyFor(device, c));
      hide StagingOf, WorksOf, Capacity, FirstStaged, FirstServed;
      history := history + [e];
    }

    /** Allocates every capacity up to twice the largest batch. */
    method Warmup(device: int, K: nat)
      requires Valid()
      modifies this`staging, this`allocations, this`history
      ensures Valid() && Warmed(old(history), history, device, K)
      ensures forall M: nat :: 1 <= M <= maxTokens ==> FirstStaged(history, KeyFor(device, M)).Some?
    {
      hide Capacity, BitLength, Valid, FirstStaged, FirstServed;
      var c: nat := 1;
      ghost var k := 0;
      while c <= maxTokens * 2
        invariant Valid() && c == Pow2(k) && Warmed(old(history), history, device, K)
        invariant forall b :: 0 <= b < k ==> FirstStaged(history, (device, Pow2(b))).Some?
        decreases maxTokens * 2 + 1 - c
      {
        PowerCapacity(k);
        ghost var before := history;
        Allocate(device, c, K);
        forall b | 0 <= b < k
          ensures FirstStaged(history, (device, Pow2(b))).Some?
        {
          Extended(before, Event(false, device, c, K, false), (device, Pow2(b)));
        }
        c := c * 2;
        k := k + 1;
      }
      forall M: nat | 1 <= M <= maxTokens
        ensures FirstStaged(history, KeyFor(device, M)).Some?
      {
        WarmIndex(M, k);
      }
    }

    /** The forward's staging and descriptor: which sizes the kernel is given and where it reads, and exactly when
        that serves the call whatever is routed. */
    method Forward(device: int, M: nat, K: nat, capturing: bool) returns (c: Call)
      requires Valid()
      modifies this
      ensures Valid() && history == old(history) + [Event(true, device, M, K, capturing)]
      ensures c.NoStaging? <==> capturing && FirstStaged(old(history), KeyFor(device, M)).None?
      ensures c.BadShape? <==> K != 1 && !Agrees(FirstStaged(old(history), KeyFor(device, M)), K)
      ensures c.Ready? ==> (device, M) in works && c.work == works[(device, M)]
                           && WorkOf(history, staging, (device, M), c.work) && Fits(c.work.buffers.slots, K)
      ensures c.Ready? ==> (RightFor(c.work, K) <==> SlotsConstant(old(history), device, M, K))
    {
      ghost var e := Event(true, device, M, K, capturing);
      var key := (device, M);
      var b := BuffersFor(device, M, K, capturing, true);
      WorksStep(history, e, staging, works, allocations);
      Extended(history, e, KeyFor(device, M));
      StagedAt(history + [e], staging, allocations, KeyFor(device, M));
      ghost var h := history;
      history := history + [e];
      hide Capacity, FirstStaged, FirstServed, RightFor, SlotsConstant, StagingOf, WorksOf;
      if b.None? { return NoStaging; }
      if !Fits(b.value.slots, K) { return BadShape; }
      if key !in works { works := works[key := MoeWork(b.value, M, K)]; }
      c := Ready(works[key]);
      WorkAt(history, staging, works, key);
      RightByHistory(h, e, staging, allocations, c.work);
    }
  }

  /** Between two histories lie only allocations for one device and slot count. */
  ghost predicate Warmed(before: seq<Event>, after: seq<Event>, device: int, K: nat) {
    && before <= after
    && forall i :: |before| <= i < |after| ==>
         !after[i].forward && after[i].device == device && after[i].K == K && !after[i].capturing
  }

  // ----- histories

  /** If every earlier call on this device and capacity had K slots, a call of K slots is served right and fits. */
  lemma {:induction false} ConstantSlots(h: seq<Event>, device: int, M: nat, K: nat)
    requires forall i :: 0 <= i < |h| && KeyFor(h[i].device, h[i].M) == KeyFor(device, M) ==> h[i].K == K
    ensures SlotsConstant(h, device, M, K)
    ensures Agrees(FirstStaged(h, KeyFor(device, M)), K)
  {
    hide Capacity;
    if h != [] { ConstantSlots(h[..|h| - 1], device, M, K); }
  }

  /** The caches after one call, for a call of the same capacity. */
  lemma OneCall(device: int, M: nat, K: nat, M': nat)
    requires Capacity(M) == Capacity(M')
    ensures var h := [Event(true, device, M, K, false)];
            && FirstStaged(h, KeyFor(device, M')) == Some(K)
            && FirstServed(h, (device, M')) == if M == M' then Some(K) else None
  {
    hide Capacity;
    var e := Event(true, device, M, K, false);
    Extended([], e, KeyFor(device, M'));
    Extended([], e, (device, M'));
    assert [] + [e] == [e];
  }

  /** Two calls on a fresh layer with one capacity: the second is served with the first one's row width, and with its
      slot count too if the sizes are equal, so with more than one token it is right exactly if the slot counts
      agree. */
  method SecondCall(device: int, M: nat, K: nat, M': nat, K': nat) returns (second: Call)
    requires Capacity(M) == Capacity(M')
    ensures !second.NoStaging? && (second.BadShape? <==> K' != 1 && K' != K)
    ensures second.Ready? ==> second.work.rows == M' && second.work.buffers.slots == K
                              && second.work.slots == (if M == M' then K else K') && Fits(K, K')
    ensures second.Ready? && M' > 1 ==> (RightFor(second.work, K') <==> K == K')
  {
    hide Capacity, FirstStaged, FirstServed, RightFor;
    var layer := new NativeCpuMoe(M);
    var first := layer.Forward(device, M, K, false);
    OneCall(device, M, K, M');
    assert layer.history == [Event(true, device, M, K, false)];
    second := layer.Forward(device, M', K', false);
    Extended([Event(true, device, M, K, false)], Event(true, device, M', K', false), (device, M'));
    Extended([Event(true, device, M, K, false)], Event(true, device, M', K', false), KeyFor(device, M'));
  }

  /** What goes wrong with one slot per token in wider rows: the kernel gives token 1 what token 0 was routed to. */
  lemma NeighbourRead(w: MoeWork, ids: seq<seq<Choice>>, flat: seq<Choice>)
    requires w.slots == 1 && w.buffers.slots > 1 && w.rows > 1
    requires Shaped(ids, w.rows, 1) && Staged(flat, w.buffers, ids, w.rows, 1)
    ensures |flat| > 1 && flat[1 * w.slots..1 * w.slots + w.slots] == ids[0]
  {
    assert RowStaged(flat, w.buffers.slots, 0, ids[0]);
    assert flat[0 * w.buffers.slots + 1] == Cell(ids[0], w.buffers.slots, 1);
  }
}
