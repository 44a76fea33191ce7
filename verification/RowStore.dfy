/** The engram row store: whole reads from partial ones, the table, single rows and ranges of rows. */
module RowStore {
  import opened Basics
  import opened NumberFormats

  const ROW := 256
  const SCALE := 8
  const WORD := 0x1_0000_0000_0000_0000   // one past the largest uint64

  // ----- pread_all

  /** One system call's answer: interrupted, an error, or bytes; how many is up to the kernel. */
  datatype Attempt = Interrupted | Failed | Got(k: nat)

  /** Aborted is the process abort; Pending means the script of answers ended while the loop still wants more. */
  datatype Outcome = Done | Aborted | Pending

  /** A legal byte count: none at the end of the file, otherwise at least one and at most what is wanted and there. */
  function Granted(file: seq<uint8>, off: nat, want: nat, k: nat): (n: nat)
    requires want > 0
    ensures n <= want && (n == 0 <==> off >= |file|) && (n > 0 ==> off + n <= |file|)
  {
    if off >= |file| then 0 else Max(1, Min(k, Min(want, |file| - off)))
  }

  /** The script has no error in it. */
  predicate Healthy(script: seq<Attempt>) { Failed !in script }

  /** How many of the answers bring bytes. */
  function Reads(script: seq<Attempt>): nat {
    if |script| == 0 then 0 else (if script[0].Got? then 1 else 0) + Reads(script[1..])
  }

  /** dst[at..at + len] is overwritten and nothing else. */
  twostate predicate OnlyWrote(dst: array<uint8>, at: nat, len: nat)
    reads dst
  {
    forall i :: 0 <= i < dst.Length && !(at <= i < at + len) ==> dst[i] == old(dst[i])
  }

  method Copy(dst: array<uint8>, at: nat, bytes: seq<uint8>)
    requires at + |bytes| <= dst.Length
    modifies dst
    ensures dst[at..at + |bytes|] == bytes && OnlyWrote(dst, at, |bytes|)
  {
    for j := 0 to |bytes|
      invariant forall i :: 0 <= i < j ==> dst[at + i] == bytes[i]
      invariant OnlyWrote(dst, at, |bytes|)
    {
      dst[at + j] := bytes[j];
    }
  }

  /** The bytes read so far are in place. */
  ghost predicate Prefix(file: seq<uint8>, off: nat, dst: seq<uint8>, at: nat, n: nat) {
    at + n <= |dst| && (n > 0 ==> off + n <= |file| && dst[at..at + n] == file[off..off + n])
  }

  lemma PrefixGrows(file: seq<uint8>, off: nat, dst: seq<uint8>, dst': seq<uint8>, at: nat, n: nat, got: nat)
    requires Prefix(file, off, dst, at, n) && |dst'| == |dst| && at + n + got <= |dst| && got > 0
    requires off + n + got <= |file|
    requires dst'[at + n..at + n + got] == file[off + n..off + n + got]
    requires forall i :: 0 <= i < |dst| && !(at + n <= i < at + n + got) ==> dst'[i] == dst[i]
    ensures Prefix(file, off, dst', at, n + got)
  {
    assert dst'[at..at + n] == dst[at..at + n];
    assert dst'[at..at + (n + got)] == dst'[at..at + n] + dst'[at + n..at + n + got];
    assert file[off..off + (n + got)] == file[off..off + n] + file[off + n..off + n + got];
  }

  /** Reads len bytes at off into dst[at..], whatever lengths the calls return. Every answer with bytes brings the end
      closer, so len of them are enough. */
  method PreadAll(file: seq<uint8>, dst: array<uint8>, at: nat, len: nat, off: nat, script: seq<Attempt>)
    returns (r: Outcome, rest: seq<Attempt>)
    requires at + len <= dst.Length
    modifies dst
    ensures OnlyWrote(dst, at, len)
    ensures r == Done && len > 0 ==> off + len <= |file| && dst[at..at + len] == file[off..off + len]
    ensures r == Aborted ==> !Healthy(script) || off + len > |file|
    ensures r == Pending ==> rest == [] && Reads(script) < len
    ensures r == Done ==> Reads(script) <= Reads(rest) + len
    ensures Healthy(script) ==> Healthy(rest)
  {
    hide Granted;
    rest := script;
    var n: nat := 0;
    while n < len
      invariant n <= len && Prefix(file, off, dst[..], at, n) && OnlyWrote(dst, at, len)
      invariant Healthy(script) ==> Healthy(rest)
      invariant Reads(script) <= Reads(rest) + n
      decreases |rest|
    {
      if rest == [] { return Pending, []; }
      var a := rest[0];
      rest := rest[1..];
      match a
      case Interrupted =>
      case Failed => return Aborted, rest;
      case Got(k) =>
        var got := Granted(file, off + n, len - n, k);
        if got == 0 { return Aborted, rest; }
        ghost var before := dst[..];
        Copy(dst, at + n, file[off + n..off + n + got]);
        PrefixGrows(file, off, before, dst[..], at, n, got);
        n := n + got;
    }
    r := Done;
  }

  // ----- opening a table

  /** A store over one table: the file, the row count, the two byte offsets, the owned range. */
  datatype Store = Store(file: seq<uint8>, rows: nat, woff: nat, soff: nat, lo: nat, hi: nat) {
    ghost predicate Ok() {
      lo <= hi <= rows && woff + rows * ROW <= |file| && soff + rows * SCALE <= |file|
    }

    predicate Owns(id: int) { lo <= id < hi }
  }

  function Wrap(x: nat): nat { x % WORD }

  /** row_store_open's size check, in 64-bit arithmetic. */
  function Open(file: seq<uint8>, rows: nat, woff: nat, soff: nat): Option<Store> {
    if Wrap(woff + Wrap(rows * ROW)) > |file| || Wrap(soff + Wrap(rows * SCALE)) > |file| then None
    else Some(Store(file, rows, woff, soff, 0, rows))
  }

  lemma WrapSum(a: nat, b: nat)
    ensures Wrap(a + Wrap(b)) <= a + b
    ensures a + b < WORD ==> Wrap(a + Wrap(b)) == a + b
  {
  }

  /** A table that fits opens, and an opened table fits exactly when neither of its ends exceeds 64 bits. */
  lemma OpenExact(file: seq<uint8>, rows: nat, woff: nat, soff: nat)
    requires |file| < WORD
    ensures woff + rows * ROW <= |file| && soff + rows * SCALE <= |file| ==> Open(file, rows, woff, soff).Some?
    ensures Open(file, rows, woff, soff).Some? ==>
              (Open(file, rows, woff, soff).value.Ok() <==> woff + rows * ROW < WORD && soff + rows * SCALE < WORD)
    ensures Open(file, rows, woff, soff).Some? ==>
              var s := Open(file, rows, woff, soff).value;
              && s.file == file && s.rows == rows && s.woff == woff && s.soff == soff
              && forall id :: s.Owns(id) <==> 0 <= id < rows
  {
    WrapSum(woff, rows * ROW);
    WrapSum(soff, rows * SCALE);
  }

  /** A row count whose byte size is a multiple of 2^64 passes the check against any file. */
  lemma OpenWraps(file: seq<uint8>)
    requires |file| < WORD
    ensures var rows := WORD / SCALE; Open(file, rows, 0, 0).Some? && !Open(file, rows, 0, 0).value.Ok()
  {
  }

  /** row_store_range: None is the abort on an invalid range. */
  function SetRange(s: Store, lo: nat, hi: nat): (r: Option<Store>)
    ensures r.Some? <==> lo <= hi <= s.rows
    ensures s.Ok() && r.Some? ==> r.value.Ok()
    ensures r.Some? ==> (forall id :: r.value.Owns(id) <==> lo <= id < hi) && r.value.(lo := s.lo, hi := s.hi) == s
  {
    if lo > hi || hi > s.rows then None else Some(s.(lo := lo, hi := hi))
  }

  // ----- one row

  function Zeros(n: nat): seq<uint8> { seq(n, _ => 0) }

  /** The stored bytes of a row, zeros outside the owned range. */
  ghost function WeightRow(s: Store, id: int): (row: seq<uint8>)
    requires s.Ok()
    ensures |row| == ROW
  {
    if s.Owns(id) then s.file[s.woff + id * ROW..s.woff + id * ROW + ROW] else Zeros(ROW)
  }

  ghost function ScaleRow(s: Store, id: int): (row: seq<uint8>)
    requires s.Ok()
    ensures |row| == SCALE
  {
    if s.Owns(id) then s.file[s.soff + id * SCALE..s.soff + id * SCALE + SCALE] else Zeros(SCALE)
  }

  /** Slot i of the two staging buffers holds the row of id. */
  ghost predicate Fetched(s: Store, id: int, weights: seq<uint8>, scales: seq<uint8>, i: nat)
    requires s.Ok()
  {
    && i * ROW + ROW <= |weights| && weights[i * ROW..i * ROW + ROW] == WeightRow(s, id)
    && i * SCALE + SCALE <= |scales| && scales[i * SCALE..i * SCALE + SCALE] == ScaleRow(s, id)
  }

  /** fetch_one: an id outside the range yields zeros; an id the range allows is never out of bounds. */
  method FetchOne(s: Store, id: int, weights: array<uint8>, scales: array<uint8>, i: nat, script: seq<Attempt>)
    returns (r: Outcome, rest: seq<Attempt>)
    requires s.Ok() && weights != scales && i * ROW + ROW <= weights.Length && i * SCALE + SCALE <= scales.Length
    modifies weights, scales
    ensures OnlyWrote(weights, i * ROW, ROW) && OnlyWrote(scales, i * SCALE, SCALE)
    ensures r == Done ==> Fetched(s, id, weights[..], scales[..], i)
    ensures r == Done && s.lo <= id < s.hi ==>
              && weights[i * ROW..i * ROW + ROW] == s.file[s.woff + id * ROW..s.woff + id * ROW + ROW]
              && scales[i * SCALE..i * SCALE + SCALE] == s.file[s.soff + id * SCALE..s.soff + id * SCALE + SCALE]
    ensures !(s.lo <= id < s.hi) ==>
              && r == Done && (forall k :: i * ROW <= k < i * ROW + ROW ==> weights[k] == 0)
              && forall k :: i * SCALE <= k < i * SCALE + SCALE ==> scales[k] == 0
    ensures r == Pending ==> Reads(script) < ROW + SCALE
    ensures r == Done ==> Reads(script) <= Reads(rest) + (ROW + SCALE)
    ensures Healthy(script) ==> r != Aborted && Healthy(rest)
  {
    hide Prefix, Granted, Healthy, Reads;
    if id < 0 || id < s.lo || id >= s.hi {
      Copy(weights, i * ROW, Zeros(ROW));
      Copy(scales, i * SCALE, Zeros(SCALE));
      return Done, script;
    }
    if id >= s.rows { return Aborted, script; }
    r, rest := PreadAll(s.file, weights, i * ROW, ROW, s.woff + id * ROW, script);
    if r != Done { return; }
    r, rest := PreadAll(s.file, scales, i * SCALE, SCALE, s.soff + id * SCALE, rest);
  }

  // ----- a lookup

  /** Slots lo..hi are fetched. */
  ghost predicate Slots(s: Store, ids: seq<int>, weights: seq<uint8>, scales: seq<uint8>, lo: nat, hi: nat)
    requires s.Ok()
  {
    forall i: nat :: lo <= i < hi && i < |ids| ==> Fetched(s, ids[i], weights, scales, i)
  }

  /** A slot away from the written ones stays fetched. */
  lemma FetchedKept(s: Store, id: int, w: seq<uint8>, c: seq<uint8>, w': seq<uint8>, c': seq<uint8>, i: nat, lo: nat,
                    hi: nat)
    requires s.Ok() && Fetched(s, id, w, c, i) && !(lo <= i < hi)
    requires |w'| == |w| && forall k :: 0 <= k < |w| && !(lo * ROW <= k < hi * ROW) ==> w'[k] == w[k]
    requires |c'| == |c| && forall k :: 0 <= k < |c| && !(lo * SCALE <= k < hi * SCALE) ==> c'[k] == c[k]
    ensures Fetched(s, id, w', c', i)
  {
    hide WeightRow, ScaleRow;
    assert w'[i * ROW..i * ROW + ROW] == w[i * ROW..i * ROW + ROW];
    assert c'[i * SCALE..i * SCALE + SCALE] == c[i * SCALE..i * SCALE + SCALE];
  }

  lemma SlotsKept(s: Store, ids: seq<int>, w: seq<uint8>, c: seq<uint8>, w': seq<uint8>, c': seq<uint8>,
                  a: nat, b: nat, lo: nat, hi: nat)
    requires s.Ok() && Slots(s, ids, w, c, a, b) && (b <= lo || hi <= a)
    requires |w'| == |w| && forall k :: 0 <= k < |w| && !(lo * ROW <= k < hi * ROW) ==> w'[k] == w[k]
    requires |c'| == |c| && forall k :: 0 <= k < |c| && !(lo * SCALE <= k < hi * SCALE) ==> c'[k] == c[k]
    ensures Slots(s, ids, w', c', a, b)
  {
    hide Fetched;
    forall i: nat | a <= i < b && i < |ids|
      ensures Fetched(s, ids[i], w', c', i)
    {
      FetchedKept(s, ids[i], w, c, w', c', i, lo, hi);
    }
  }

  /** The rows lo..hi of a lookup, one after the other. */
  method FetchRange(s: Store, ids: seq<int>, weights: array<uint8>, scales: array<uint8>, lo: nat, hi: nat,
                    script: seq<Attempt>)
    returns (r: Outcome, rest: seq<Attempt>)
    requires s.Ok() && weights != scales && lo <= hi <= |ids| && |ids| * ROW <= weights.Length
    requires |ids| * SCALE <= scales.Length
    modifies weights, scales
    ensures OnlyWrote(weights, lo * ROW, (hi - lo) * ROW) && OnlyWrote(scales, lo * SCALE, (hi - lo) * SCALE)
    ensures r == Done ==> Slots(s, ids, weights[..], scales[..], lo, hi)
    ensures r == Pending ==> Reads(script) < (hi - lo) * (ROW + SCALE)
    ensures Healthy(script) ==> r != Aborted && Healthy(rest)
  {
    hide Fetched, Reads;
    r, rest := Done, script;
    for i := lo to hi
      invariant OnlyWrote(weights, lo * ROW, (hi - lo) * ROW) && OnlyWrote(scales, lo * SCALE, (hi - lo) * SCALE)
      invariant r == Done && Slots(s, ids, weights[..], scales[..], lo, i)
      invariant Reads(script) <= Reads(rest) + (i - lo) * (ROW + SCALE)
      invariant Healthy(script) ==> Healthy(rest)
    {
      ghost var w, c := weights[..], scales[..];
      r, rest := FetchOne(s, ids[i], weights, scales, i, rest);
      if r != Done { return; }
      SlotsKept(s, ids, w, c, weights[..], scales[..], lo, i, i, i + 1);
    }
  }
}
