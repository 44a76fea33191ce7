/** Loading a layer: six reads an expert, gate and up rows interleaved. */
module MoeLoad {
  import opened Basics
  import opened NumberFormats
  import opened MoeKernel
  import opened MoeLayer

  /** What the positional reads of one file deliver before they end: all the bytes asked for when the read succeeds. */
  type Disk = (int, nat) -> seq<uint8>

  predicate Complete(disk: Disk, offset: int, n: nat) { |disk(offset, n)| == n }

  /** Row r of n rows stored back to back. */
  function RowAt(bytes: seq<uint8>, width: nat, n: nat, r: nat): (row: seq<uint8>)
    ensures |bytes| == n * width && r < n ==> |row| == width
  {
    if |bytes| == n * width && r < n then
      MulOrder(r, n, width);
      bytes[r * width..r * width + width]
    else []
  }

  /** The byte counts of an expert's six pieces: w1, s1, w3, s3, w2, s2. */
  function Size(L: Layer, piece: nat): nat {
    if piece == 0 || piece == 2 then L.ig * 32 * (L.hg * 16)
    else if piece == 1 || piece == 3 then L.ig * 32 * L.hg
    else if piece == 4 then L.hg * 32 * (L.ig * 16)
    else L.hg * 32 * L.ig
  }

  function Bytes(L: Layer, disk: Disk, offs: seq<seq<int>>, e: nat, piece: nat): seq<uint8> {
    if e < |offs| && piece < |offs[e]| then disk(offs[e][piece], Size(L, piece)) else []
  }

  /** The weights the file holds. */
  function FileBank(L: Layer, disk: Disk, offs: seq<seq<int>>): Bank {
    Bank((e: nat, r: nat) => RowAt(Bytes(L, disk, offs, e, 0), L.hg * 16, L.ig * 32, r),
         (e: nat, r: nat) => RowAt(Bytes(L, disk, offs, e, 1), L.hg, L.ig * 32, r),
         (e: nat, r: nat) => RowAt(Bytes(L, disk, offs, e, 2), L.hg * 16, L.ig * 32, r),
         (e: nat, r: nat) => RowAt(Bytes(L, disk, offs, e, 3), L.hg, L.ig * 32, r),
         (e: nat, r: nat) => RowAt(Bytes(L, disk, offs, e, 4), L.ig * 16, L.hg * 32, r),
         (e: nat, r: nat) => RowAt(Bytes(L, disk, offs, e, 5), L.ig, L.hg * 32, r))
  }

  predicate AllRead(L: Layer, disk: Disk, offs: seq<seq<int>>, e: nat)
    requires e < |offs| && |offs[e]| == 6
  {
    forall p: nat :: p < 6 ==> Complete(disk, offs[e][p], Size(L, p))
  }

  /** Only expert e's rows may differ. */
  twostate predicate OthersKept(m: array2<seq<uint8>>, e: nat)
    reads m
  {
    forall d, r :: 0 <= d < m.Length0 && 0 <= r < m.Length1 && d != e ==> m[d, r] == old(m[d, r])
  }

  /** A read straight into rows of a matrix; a short read overwrites only the bytes it delivers. */
  method ReadInto(m: array2<seq<uint8>>, e: nat, got: seq<uint8>, width: nat)
    requires e < m.Length0
    modifies m
    ensures OthersKept(m, e)
    ensures |got| == m.Length1 * width ==> forall r: nat :: r < m.Length1 ==> m[e, r] == RowAt(got, width, m.Length1, r)
  {
    for r := 0 to m.Length1
      invariant OthersKept(m, e)
      invariant |got| == m.Length1 * width ==> forall q: nat :: q < r ==> m[e, q] == RowAt(got, width, m.Length1, q)
    {
      if |got| == m.Length1 * width {
        MulOrder(r, m.Length1, width);
        m[e, r] := got[r * width..r * width + width];
      } else {
        m[e, r] := Spliced(m[e, r], got, r, width);
      }
    }
  }

  function Spliced(row: seq<uint8>, got: seq<uint8>, r: nat, width: nat): seq<uint8> {
    var rest := if r * width <= |got| then got[r * width..] else [];
    if width <= |rest| then rest[..width] else if |rest| <= |row| then rest + row[|rest|..] else row
  }

  /** Copies gate rows before up rows, and gate scales before up scales. */
  method Interleave(L: Layer, e: nat, t1: seq<uint8>, q1: seq<uint8>, t3: seq<uint8>, q3: seq<uint8>)
    requires L.Shaped() && e < L.E
    requires |t1| == |t3| == L.ig * 32 * (L.hg * 16) && |q1| == |q3| == L.ig * 32 * L.hg
    modifies L.w13, L.s13
    ensures OthersKept(L.w13, e) && OthersKept(L.s13, e)
    ensures forall r: nat :: r < L.ig * 32 ==>
              && L.w13[e, r] == RowAt(t1, L.hg * 16, L.ig * 32, r) + RowAt(t3, L.hg * 16, L.ig * 32, r)
              && L.s13[e, r] == RowAt(q1, L.hg, L.ig * 32, r) + RowAt(q3, L.hg, L.ig * 32, r)
  {
    var n := L.ig * 32;
    for r := 0 to n
      invariant OthersKept(L.w13, e) && OthersKept(L.s13, e)
      invariant forall q: nat :: q < r ==>
                  && L.w13[e, q] == RowAt(t1, L.hg * 16, n, q) + RowAt(t3, L.hg * 16, n, q)
                  && L.s13[e, q] == RowAt(q1, L.hg, n, q) + RowAt(q3, L.hg, n, q)
    {
      var rowb, srow := L.hg * 16, L.hg;
      MulOrder(r, n, rowb);
      MulOrder(r, n, srow);
      L.w13[e, r] := t1[r * rowb..r * rowb + rowb] + t3[r * rowb..r * rowb + rowb];
      L.s13[e, r] := q1[r * srow..r * srow + srow] + q3[r * srow..r * srow + srow];
    }
  }

  lemma Halves(row: seq<uint8>, a: seq<uint8>, b: seq<uint8>)
    requires row == a + b
    ensures row[..|a|] == a && row[|a|..] == b
  {
  }

  /** Interleaved rows are the rows the layer's tasks expect. */
  lemma Assembled(L: Layer, disk: Disk, offs: seq<seq<int>>, e: nat, r: nat)
    requires L.Shaped() && e < L.E == |offs| && |offs[e]| == 6 && AllRead(L, disk, offs, e) && r < L.ig * 32
    requires L.w13[e, r] == RowAt(Bytes(L, disk, offs, e, 0), L.hg * 16, L.ig * 32, r)
                 + RowAt(Bytes(L, disk, offs, e, 2), L.hg * 16, L.ig * 32, r)
    requires L.s13[e, r] == RowAt(Bytes(L, disk, offs, e, 1), L.hg, L.ig * 32, r)
                 + RowAt(Bytes(L, disk, offs, e, 3), L.hg, L.ig * 32, r)
    ensures L.GateUpHolds(FileBank(L, disk, offs), e, r)
  {
    hide RowAt;
    assert Complete(disk, offs[e][0], Size(L, 0)) && Complete(disk, offs[e][2], Size(L, 2));
    assert Complete(disk, offs[e][1], Size(L, 1)) && Complete(disk, offs[e][3], Size(L, 3));
    Halves(L.w13[e, r], RowAt(Bytes(L, disk, offs, e, 0), L.hg * 16, L.ig * 32, r),
           RowAt(Bytes(L, disk, offs, e, 2), L.hg * 16, L.ig * 32, r));
    Halves(L.s13[e, r], RowAt(Bytes(L, disk, offs, e, 1), L.hg, L.ig * 32, r),
           RowAt(Bytes(L, disk, offs, e, 3), L.hg, L.ig * 32, r));
  }

  lemma GateUpAssembled(L: Layer, disk: Disk, offs: seq<seq<int>>, e: nat)
    requires L.Shaped() && e < L.E == |offs| && |offs[e]| == 6 && AllRead(L, disk, offs, e)
    requires forall r: nat :: r < L.ig * 32 ==>
               && L.w13[e, r] == RowAt(Bytes(L, disk, offs, e, 0), L.hg * 16, L.ig * 32, r)
                 + RowAt(Bytes(L, disk, offs, e, 2), L.hg * 16, L.ig * 32, r)
               && L.s13[e, r] == RowAt(Bytes(L, disk, offs, e, 1), L.hg, L.ig * 32, r)
                 + RowAt(Bytes(L, disk, offs, e, 3), L.hg, L.ig * 32, r)
    requires forall r: nat :: r < L.hg * 32 ==>
               && L.w2[e, r] == RowAt(Bytes(L, disk, offs, e, 4), L.ig * 16, L.hg * 32, r)
               && L.s2[e, r] == RowAt(Bytes(L, disk, offs, e, 5), L.ig, L.hg * 32, r)
    ensures L.ExpertHolds(FileBank(L, disk, offs), e)
  {
    hide RowAt, Bytes, L.GateUpHolds;
    forall r: nat | r < L.ig * 32
      ensures L.GateUpHolds(FileBank(L, disk, offs), e, r)
    {
      Assembled(L, disk, offs, e, r);
    }
  }

  /** One expert. The reads stop at the first that fails, and a failing expert is skipped. */
  method LoadExpert(L: Layer, disk: Disk, offs: seq<seq<int>>, e: nat) returns (ok: bool)
    requires L.Shaped() && e < L.E == |offs| && |offs[e]| == 6
    modifies L.w13, L.s13, L.w2, L.s2
    ensures OthersKept(L.w13, e) && OthersKept(L.s13, e) && OthersKept(L.w2, e) && OthersKept(L.s2, e)
    ensures ok == AllRead(L, disk, offs, e)
    ensures ok ==> L.ExpertHolds(FileBank(L, disk, offs), e)
  {
    hide RowAt;
    var o := offs[e];
    ok := false;
    if !Complete(disk, o[0], Size(L, 0)) || !Complete(disk, o[1], Size(L, 1))
       || !Complete(disk, o[2], Size(L, 2)) || !Complete(disk, o[3], Size(L, 3)) { return; }
    ReadInto(L.w2, e, disk(o[4], Size(L, 4)), L.ig * 16);
    if !Complete(disk, o[4], Size(L, 4)) { return; }
    ReadInto(L.s2, e, disk(o[5], Size(L, 5)), L.ig);
    if !Complete(disk, o[5], Size(L, 5)) { return; }
    Interleave(L, e, disk(o[0], Size(L, 0)), disk(o[1], Size(L, 1)), disk(o[2], Size(L, 2)), disk(o[3], Size(L, 3)));
    GateUpAssembled(L, disk, offs, e);
    ok := true;
  }

  /** The next expert, after those before it. */
  method LoadNext(L: Layer, disk: Disk, offs: seq<seq<int>>, e: nat) returns (ok: bool)
    requires L.Shaped() && e < L.E == |offs| && |offs[e]| == 6 && forall d :: 0 <= d < e ==> |offs[d]| == 6
    requires forall d: nat :: d < e && AllRead(L, disk, offs, d) ==> L.ExpertHolds(FileBank(L, disk, offs), d)
    modifies L.w13, L.s13, L.w2, L.s2
    ensures ok == AllRead(L, disk, offs, e)
    ensures forall d: nat :: d <= e && AllRead(L, disk, offs, d) ==> L.ExpertHolds(FileBank(L, disk, offs), d)
  {
    hide AllRead, FileBank;
    ok := LoadExpert(L, disk, offs, e);
    forall d: nat | d < e && AllRead(L, disk, offs, d)
      ensures L.ExpertHolds(FileBank(L, disk, offs), d)
    {
      forall r: nat | r < L.ig * 32
        ensures L.GateUpHolds(FileBank(L, disk, offs), d, r)
      {
        assert old(L.GateUpHolds(FileBank(L, disk, offs), d, r));
      }
    }
  }

  /** cpu_moe_load: 0 when every expert was read in full, -2 when some were skipped, -1 when the file does
      not open. Every expert that was read holds exactly the file's rows. */
  method Load(L: Layer, fileOpens: bool, disk: Disk, offs: seq<seq<int>>) returns (code: int)
    requires L.Shaped() && |offs| == L.E && forall e :: 0 <= e < L.E ==> |offs[e]| == 6
    modifies L.w13, L.s13, L.w2, L.s2
    ensures code == if !fileOpens then -1 else if forall e :: 0 <= e < L.E ==> AllRead(L, disk, offs, e) then 0 else -2
    ensures fileOpens ==> forall e: nat :: e < L.E && AllRead(L, disk, offs, e) ==>
              L.ExpertHolds(FileBank(L, disk, offs), e)
  {
    hide AllRead;
    if !fileOpens { return -1; }
    var fail := false;
    for e := 0 to L.E
      invariant fail <==> exists d :: 0 <= d < e && !AllRead(L, disk, offs, d)
      invariant forall d: nat :: d < e && AllRead(L, disk, offs, d) ==> L.ExpertHolds(FileBank(L, disk, offs), d)
    {
      var ok := LoadNext(L, disk, offs, e);
      if !ok { fail := true; }
    }
    code := if fail then -2 else 0;
  }

  /** After a load that returns 0 the layer is the layer of the file's weights, ready for a forward call. */
  lemma LoadedLayer(L: Layer, disk: Disk, offs: seq<seq<int>>)
    requires L.Shaped() && |offs| == L.E && forall e :: 0 <= e < L.E ==> |offs[e]| == 6
    requires forall e: nat :: e < L.E ==> AllRead(L, disk, offs, e) && L.ExpertHolds(FileBank(L, disk, offs), e)
    ensures L.Holds(Moe(L.ar, L.E, L.hg, L.ig, L.lim, FileBank(L, disk, offs)))
  {
    hide RowAt, L.ExpertHolds;
    forall e: nat, p: nat | e < L.E && p < 6
      ensures |Bytes(L, disk, offs, e, p)| == Size(L, p)
    {
      assert AllRead(L, disk, offs, e) && Complete(disk, offs[e][p], Size(L, p));
    }
  }
}
