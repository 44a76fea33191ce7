/** One engram layer's lookup of local heads, its dequantisation, and the slow reference that reads the mapped file. */
module EngramLookup {
  import opened Basics
  import opened NumberFormats
  import opened JobPool
  import opened RowStore
  import opened LookupPool

  const BLOCK := 32   // columns that share a scale

  /** The bfloat16 pattern of an fp8 code times a block scale, shared by both sides. */
  type Decode = (uint8, uint8) -> uint16

  /** A table row of bfloat16 patterns from its bytes and its scale bytes. */
  function DequantRow(d: Decode, w: seq<uint8>, c: seq<uint8>): (row: seq<uint16>)
    requires |w| == ROW && |c| == SCALE
    ensures |row| == ROW
    ensures forall b, k :: 0 <= b < SCALE && 32 * b <= k < 32 * b + 32 ==> row[k] == d(w[k], c[b])
  {
    seq(ROW, k requires 0 <= k < ROW => d(w[k], c[k / BLOCK]))
  }

  predicate InFile(file: seq<uint8>, woff: nat, soff: nat, id: int) {
    id >= 0 && woff + id * ROW + ROW <= |file| && soff + id * SCALE + SCALE <= |file|
  }

  function FileRow(d: Decode, file: seq<uint8>, woff: nat, soff: nat, id: int): seq<uint16>
    requires InFile(file, woff, soff, id)
  {
    DequantRow(d, file[woff + id * ROW..woff + id * ROW + ROW], file[soff + id * SCALE..soff + id * SCALE + SCALE])
  }

  /** The reference: every id's bytes straight from the mapped file, dequantised. */
  function Reference(d: Decode, file: seq<uint8>, woff: nat, soff: nat, ids: seq<int>): (rows: seq<seq<uint16>>)
    requires forall i :: 0 <= i < |ids| ==> InFile(file, woff, soff, ids[i])
    ensures |rows| == |ids|
  {
    seq(|ids|, i requires 0 <= i < |ids| => FileRow(d, file, woff, soff, ids[i]))
  }

  lemma OwnedInFile(s: Store, id: int)
    requires s.Ok() && s.Owns(id)
    ensures InFile(s.file, s.woff, s.soff, id)
  {
  }

  /** The row a table gives for one id: the reference's inside its vocabulary range, dequantised zeros outside. */
  ghost function RowOf(d: Decode, s: Store, id: int): seq<uint16>
    requires s.Ok()
  {
    if s.Owns(id) then
      OwnedInFile(s, id);
      FileRow(d, s.file, s.woff, s.soff, id)
    else DequantRow(d, Zeros(ROW), Zeros(SCALE))
  }

  /** The hash columns of this rank's heads, token by token. */
  function LocalIds(indices: seq<seq<int>>, head: nat, heads: nat): (ids: seq<int>)
    requires forall t :: 0 <= t < |indices| ==> |indices[t]| >= head + heads
    ensures |ids| == |indices| * heads
  {
    if indices == [] then []
    else LocalIds(indices[..|indices| - 1], head, heads) + indices[|indices| - 1][head..head + heads]
  }

  lemma {:induction false} LocalIdAt(indices: seq<seq<int>>, head: nat, heads: nat, t: nat, h: nat)
    requires forall t :: 0 <= t < |indices| ==> |indices[t]| >= head + heads
    requires t < |indices| && h < heads
    ensures t * heads + h < |indices| * heads
    ensures LocalIds(indices, head, heads)[t * heads + h] == indices[t][head + h]
  {
    MulOrder(t, |indices|, heads);
    if t < |indices| - 1 {
      LocalIdAt(indices[..|indices| - 1], head, heads, t, h);
    } else {
      assert t * heads == |indices[..|indices| - 1]| * heads;
    }
  }

  /** Every staged row dequantised. */
  function Dequant(d: Decode, weights: seq<uint8>, scales: seq<uint8>, count: nat): (rows: seq<seq<uint16>>)
    requires count * ROW <= |weights| && count * SCALE <= |scales|
    ensures |rows| == count
  {
    seq(count, i requires 0 <= i < count =>
      DequantRow(d, weights[i * ROW..i * ROW + ROW], scales[i * SCALE..i * SCALE + SCALE]))
  }

  lemma FetchedDequant(d: Decode, s: Store, id: int, weights: seq<uint8>, scales: seq<uint8>, i: nat)
    requires s.Ok() && Fetched(s, id, weights, scales, i)
    ensures DequantRow(d, weights[i * ROW..i * ROW + ROW], scales[i * SCALE..i * SCALE + SCALE]) == RowOf(d, s, id)
  {
    hide DequantRow;
  }

  /** Every id lies in the table's vocabulary range. */
  predicate AllOwned(s: Store, ids: seq<int>) {
    forall i :: 0 <= i < |ids| ==> s.Owns(ids[i])
  }

  /** The reference on ids the table owns, which all lie in the file. */
  ghost function ReferenceOf(d: Decode, s: Store, ids: seq<int>): (rows: seq<seq<uint16>>)
    requires s.Ok() && AllOwned(s, ids)
    ensures |rows| == |ids|
  {
    assert forall i :: 0 <= i < |ids| ==> s.Owns(ids[i]) && InFile(s.file, s.woff, s.soff, ids[i]);
    Reference(d, s.file, s.woff, s.soff, ids)
  }

  /** Owned ids: the dequantised staging rows are the reference lookup of the file. */
  lemma LookupIsReference(d: Decode, s: Store, ids: seq<int>, weights: seq<uint8>, scales: seq<uint8>)
    requires s.Ok() && Slots(s, ids, weights, scales, 0, |ids|) && AllOwned(s, ids)
    requires |ids| * ROW <= |weights| && |ids| * SCALE <= |scales|
    ensures Dequant(d, weights, scales, |ids|) == ReferenceOf(d, s, ids)
  {
    hide DequantRow, FileRow, Fetched;
    forall i | 0 <= i < |ids|
      ensures Dequant(d, weights, scales, |ids|)[i] == ReferenceOf(d, s, ids)[i]
    {
      FetchedDequant(d, s, ids[i], weights, scales, i);
    }
  }

  /** Row h of token t is the row of its hash column head + h. */
  ghost predicate HeadServed(d: Decode, s: Store, token: seq<int>, head: nat, rows: seq<seq<uint16>>, base: nat, h: nat)
    requires s.Ok() && head + h < |token|
  {
    base + h < |rows| && rows[base + h] == RowOf(d, s, token[head + h])
  }

  /** Every local head of token t has its row. */
  ghost predicate Served(d: Decode, s: Store, indices: seq<seq<int>>, head: nat, heads: nat, rows: seq<seq<uint16>>,
                         t: nat)
    requires s.Ok() && t < |indices| && |indices[t]| >= head + heads
  {
    forall h: nat :: h < heads ==> HeadServed(d, s, indices[t], head, rows, t * heads, h)
  }

  lemma RowServed(d: Decode, s: Store, ids: seq<int>, weights: seq<uint8>, scales: seq<uint8>, i: nat)
    requires s.Ok() && i < |ids| && Slots(s, ids, weights, scales, 0, |ids|)
    requires |ids| * ROW <= |weights| && |ids| * SCALE <= |scales|
    ensures Dequant(d, weights, scales, |ids|)[i] == RowOf(d, s, ids[i])
  {
    hide Fetched, DequantRow, RowOf;
    FetchedDequant(d, s, ids[i], weights, scales, i);
  }

  lemma RowsServed(d: Decode, s: Store, indices: seq<seq<int>>, head: nat, heads: nat, weights: seq<uint8>,
                   scales: seq<uint8>, t: nat)
    requires s.Ok() && t < |indices| && forall t :: 0 <= t < |indices| ==> |indices[t]| >= head + heads
    requires var ids := LocalIds(indices, head, heads);
             && Slots(s, ids, weights, scales, 0, |ids|)
             && |ids| * ROW <= |weights| && |ids| * SCALE <= |scales|
    ensures Served(d, s, indices, head, heads, Dequant(d, weights, scales, |LocalIds(indices, head, heads)|), t)
  {
    hide Dequant, RowOf, LocalIds, Slots;
    var ids := LocalIds(indices, head, heads);
    forall h: nat | h < heads
      ensures HeadServed(d, s, indices[t], head, Dequant(d, weights, scales, |ids|), t * heads, h)
    {
      LocalIdAt(indices, head, heads, t, h);
      RowServed(d, s, ids, weights, scales, t * heads + h);
    }
  }

  /** SsdEngramTable.lookup: the local heads' ids through the row store, then one dequantisation of the staged rows. */
  method Lookup(d: Decode, s: Store, indices: seq<seq<int>>, head: nat, heads: nat, weights: array<uint8>,
                scales: array<uint8>, pool: Pool, tag: nat, schedule: seq<Step>, script: seq<Attempt>)
    returns (r: Outcome, rows: seq<seq<uint16>>)
    requires s.Ok() && forall t :: 0 <= t < |indices| ==> |indices[t]| >= head + heads
    requires var ids := LocalIds(indices, head, heads);
             && weights != scales && |ids| * ROW <= weights.Length && |ids| * SCALE <= scales.Length
             && Inv(pool) && pool.caller == Outside
             && (Jobs(|ids|) > 1 ==> Schedule(Entered(pool, tag, ids, [], []).pool, schedule))
    modifies weights, scales
    ensures Healthy(script) ==> r != Aborted
    ensures var n := |indices| * heads;
            r == Pending ==> Reads(script) < (if Jobs(n) > 1 then Fetches(schedule) else n) * (ROW + SCALE)
    ensures r == Done ==> |rows| == |indices| * heads
    ensures r == Done ==> forall t :: 0 <= t < |indices| ==> Served(d, s, indices, head, heads, rows, t)
    ensures r == Done && AllOwned(s, LocalIds(indices, head, heads)) ==>
              rows == ReferenceOf(d, s, LocalIds(indices, head, heads))
  {
    hide Reads, Fetches, Slots, DequantRow, ReferenceOf, Schedule, Inv, RowOf, Served, LocalIds, Entered;
    rows := [];
    var ids := LocalIds(indices, head, heads);
    r := LookupPool.Lookup(s, ids, weights, scales, pool, tag, schedule, script);
    if r != Done { return; }
    rows := Dequant(d, weights[..], scales[..], |ids|);
    if AllOwned(s, ids) { LookupIsReference(d, s, ids, weights[..], scales[..]); }
    forall t | 0 <= t < |indices|
      ensures Served(d, s, indices, head, heads, rows, t)
    {
      RowsServed(d, s, indices, head, heads, weights[..], scales[..], t);
    }
  }

  /** In units of 2^-149 a scale byte c means 2^(c + 22). Shifting it into the exponent field gives exactly that
      for every byte but 0, which becomes zero; 255 is the format's NaN. */
  lemma ScaleExact(c: uint8)
    requires c < 255
    ensures Magnitude(c * MANTISSA) == Pow2(c + 22) <==> c > 0
    ensures c == 0 ==> Magnitude(c * MANTISSA) == 0
  {
    HalfScale(c + 1);
    HalfScale(1);
  }
}
