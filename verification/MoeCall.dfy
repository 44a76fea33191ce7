/** One call of the CPU expert layer as the model makes it: stage the routing, find the descriptor, and let the callback
    run the kernel on what the descriptor points at. */
module MoeCall {
  import opened Basics
  import opened MoeKernel
  import opened MoeLayer
  import opened MoeRun
  import opened MoeStaging

  /** The expert ids and the weights of some slots, as the kernel gets them. */
  function Ids(row: seq<Choice>): (r: seq<int>)
    ensures |r| == |row|
  {
    seq(|row|, i requires 0 <= i < |row| => row[i].0)
  }

  function Wts(row: seq<Choice>): (r: seq<real>)
    ensures |r| == |row|
  {
    seq(|row|, i requires 0 <= i < |row| => row[i].1)
  }

  /** Row t of the result is the rounded naive sum over what the caller routed token t to. */
  ghost predicate RowServed(moe: Moe, x: seq<seq<nat>>, ids: seq<seq<Choice>>, t: nat, row: seq<nat>)
    requires moe.Ok() && t < |x| == |ids| && |x[t]| == moe.H()
  {
    && |row| == moe.H()
    && forall j: nat :: j < moe.H() ==>
         row[j] == moe.ar.toBf16(moe.Combined(Ids(ids[t]), Wts(ids[t]), DecodedRow(moe.ar, x[t]), j, |ids[t]|))
  }

  // ----- staging the routing

  /** Tensor.copy_ into the first rows of the staging; what lies behind them stays. */
  function CopiedIn(flat: seq<Choice>, width: nat, ids: seq<seq<Choice>>): (r: seq<Choice>)
    requires forall t :: 0 <= t < |ids| ==> Fits(width, |ids[t]|)
    ensures |r| == |flat|
  {
    seq(|flat|, i requires 0 <= i < |flat| =>
      if width > 0 && i / width < |ids| then Cell(ids[i / width], width, i % width) else flat[i])
  }

  lemma CopiedRow(flat: seq<Choice>, width: nat, ids: seq<seq<Choice>>, t: nat, rows: nat)
    requires forall t :: 0 <= t < |ids| ==> Fits(width, |ids[t]|)
    requires t < |ids| <= rows && |flat| == rows * width
    ensures RowStaged(CopiedIn(flat, width, ids), width, t, ids[t])
  {
    var r := CopiedIn(flat, width, ids);
    MulOrder(t, rows, width);
    forall c | 0 <= c < width
      ensures r[t * width + c] == Cell(ids[t], width, c)
    {
      DivMod(t, width, c);
    }
  }

  lemma CopyStages(flat: seq<Choice>, b: MoeBuffers, ids: seq<seq<Choice>>, M: nat, K: nat)
    requires Shaped(ids, M, K) && Fits(b.slots, K) && M <= b.rows && |flat| == b.rows * b.slots
    ensures Staged(CopiedIn(flat, b.slots, ids), b, ids, M, K)
  {
    hide RowStaged, CopiedIn;
    forall t | 0 <= t < M
      ensures RowStaged(CopiedIn(flat, b.slots, ids), b.slots, t, ids[t])
    {
      CopiedRow(flat, b.slots, ids, t, b.rows);
    }
  }

  // ----- the callback

  lemma OwnSlots(flat: seq<Choice>, n: nat, slots: nat, t: nat, row: seq<Choice>)
    requires SeesOwn(flat, slots, t, row) && t * slots + slots <= n <= |flat|
    ensures Ids(flat[..n])[t * slots..t * slots + slots] == Ids(row)
    ensures Wts(flat[..n])[t * slots..t * slots + slots] == Wts(row)
  {
    var at := t * slots;
    forall k | 0 <= k < slots
      ensures flat[at + k] == row[k]
    {
      assert flat[at..at + slots][k] == row[k];
    }
  }

  /** Seeing one's own slots includes staying inside the staging. */
  lemma ReadsInside(flat: seq<Choice>, w: MoeWork, ids: seq<seq<Choice>>)
    requires |ids| == w.rows
    ensures ReadsOwn(flat, w, ids) ==> w.rows * w.slots <= |flat|
  {
    if ReadsOwn(flat, w, ids) && w.rows > 0 {
      assert SeesOwn(flat, w.slots, w.rows - 1, ids[w.rows - 1]);
      Distribute(w.rows - 1, 1, w.slots);
    }
  }

  /** cpu_moe_host_fn: the kernel on the descriptor's sizes and the memory it points into. */
  method HostFn(L: Layer, ghost moe: Moe, w: MoeWork, x: seq<seq<nat>>, flat: seq<Choice>, ghost ids: seq<seq<Choice>>,
                orders: nat -> Orders, out: array<seq<nat>>)
    requires L.Holds(moe) && L.Scratch() && L.ig <= 2 * L.hg
    requires |x| == w.rows == out.Length == |ids| && forall t :: 0 <= t < |x| ==> |x[t]| == L.hg * 32
    requires w.rows * w.slots <= |flat| && LegalFor(orders, |x|, L.ig, L.hg)
    modifies L`xp, L`hp, L`yp, L.xp, L.hp, L.yp, out
    ensures L.Scratch()
    ensures ReadsOwn(flat, w, ids) ==> forall t :: 0 <= t < |x| ==> RowServed(moe, x, ids, t, out[t])
  {
    hide LegalFor, RowWritten, RowServed, SeesOwn;
    var n := w.rows * w.slots;
    Forward(L, moe, x, Ids(flat[..n]), Wts(flat[..n]), w.slots, orders, out);
    if ReadsOwn(flat, w, ids) {
      forall t | 0 <= t < |x|
        ensures RowServed(moe, x, ids, t, out[t])
      {
        RowIsServed(moe, x, flat, n, w.slots, ids, t, out[t]);
      }
    }
  }

  lemma RowIsServed(moe: Moe, x: seq<seq<nat>>, flat: seq<Choice>, n: nat, slots: nat, ids: seq<seq<Choice>>, t: nat,
                    row: seq<nat>)
    requires moe.Ok() && t < |x| == |ids| && n == |x| * slots && n <= |flat| && |x[t]| == moe.H()
    requires SeesOwn(flat, slots, t, ids[t])
    requires var batch := Batch(Decoded(moe.ar, x), Ids(flat[..n]), Wts(flat[..n]), slots);
             batch.Ok(moe.H()) && RowWritten(moe, batch, t, row)
    ensures RowServed(moe, x, ids, t, row)
  {
    hide moe.Combined, moe.Ok;
    SlotBounds(t, |x|, slots);
    OwnSlots(flat, n, slots, t, ids[t]);
  }

  // ----- the call

  /** NativeCpuMoe.forward followed by its callback. The staging holds whatever earlier calls left. A call whose slot
      count is that of the first calls on its size and on its capacity gives every row its own naive sum. A descriptor
      that would read past the staging has no result here. */
  method Serve(cache: NativeCpuMoe, L: Layer, ghost moe: Moe, device: int, x: seq<seq<nat>>, ids: seq<seq<Choice>>,
               K: nat, capturing: bool, leftover: MoeBuffers -> seq<Choice>, orders: nat -> Orders,
               out: array<seq<nat>>)
    returns (c: Call)
    requires cache.Valid() && L.Holds(moe) && L.Scratch() && L.ig <= 2 * L.hg
    requires Shaped(ids, |x|, K) && out.Length == |x| && forall t :: 0 <= t < |x| ==> |x[t]| == L.hg * 32
    requires forall b :: |leftover(b)| == b.rows * b.slots
    requires LegalFor(orders, |x|, L.ig, L.hg)
    modifies cache, L`xp, L`hp, L`yp, L.xp, L.hp, L.yp, out
    ensures cache.Valid() && L.Scratch()
    ensures cache.history == old(cache.history) + [Event(true, device, |x|, K, capturing)]
    ensures c.NoStaging? <==> capturing && FirstStaged(old(cache.history), KeyFor(device, |x|)).None?
    ensures c.BadShape? <==> K != 1 && !Agrees(FirstStaged(old(cache.history), KeyFor(device, |x|)), K)
    ensures !c.Ready? ==> out[..] == old(out[..])
    ensures c.Ready? && SlotsConstant(old(cache.history), device, |x|, K) ==>
              forall t :: 0 <= t < |x| ==> RowServed(moe, x, ids, t, out[t])
  {
    hide LegalFor, RowServed, SlotsConstant, StagingOf, WorksOf, ReadsOwn;
    c := cache.Forward(device, |x|, K, capturing);
    if !c.Ready? { return; }
    var b := c.work.buffers;
    var flat := CopiedIn(leftover(b), b.slots, ids);
    CopyStages(leftover(b), b, ids, |x|, K);
    ReadsInside(flat, c.work, ids);
    if c.work.rows * c.work.slots <= |flat| {
      HostFn(L, moe, c.work, x, flat, ids, orders, out);
    }
  }
}
