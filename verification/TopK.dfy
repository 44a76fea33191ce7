/** The masked top-k fallback of the sparse indexer, its output contract, and the row-chunked loop. */
module TopK {
  import opened Basics

  /** A logit: minus infinity or a finite value. */
  datatype Score = NegInf | Fin(value: real)

  predicate Geq(a: Score, b: Score) { b.NegInf? || (a.Fin? && a.value >= b.value) }

  const SENTINEL := 0x7FFF_FFFF   // the largest int32

  // ----- masking and torch.topk

  /** A column of the row's own range with a finite score. */
  predicate Eligible(row: seq<Score>, ks: nat, ke: nat, c: int) {
    0 <= c < |row| && ks <= c < ke && row[c].Fin?
  }

  ghost function Eligibles(row: seq<Score>, ks: nat, ke: nat): set<int> {
    set c | 0 <= c < |row| && Eligible(row, ks, ke, c)
  }

  /** Columns outside [ks, ke) become minus infinity. */
  ghost predicate MaskedRow(row: seq<Score>, masked: seq<Score>, ks: nat, ke: nat) {
    |masked| == |row| && forall c :: 0 <= c < |row| ==> masked[c] == if ks <= c < ke then row[c] else NegInf
  }

  method MaskFill(row: seq<Score>, ks: nat, ke: nat) returns (masked: seq<Score>)
    ensures MaskedRow(row, masked, ks, ke)
  {
    masked := row;
    for c := 0 to |row|
      invariant |masked| == |row|
      invariant forall d :: 0 <= d < c ==> masked[d] == if ks <= d < ke then row[d] else NegInf
      invariant forall d :: c <= d < |row| ==> masked[d] == row[d]
    {
      if !(ks <= c < ke) { masked := masked[c := NegInf]; }
    }
  }

  predicate Distinct(s: seq<int>) { forall a, b :: 0 <= a < b < |s| ==> s[a] != s[b] }

  /** What torch.topk promises of the returned columns; ties may fall either way. */
  ghost predicate Dominant(row: seq<Score>, cols: seq<int>) {
    && Distinct(cols) && (forall c :: c in cols ==> 0 <= c < |row|)
    && forall c, d :: c in cols && 0 <= d < |row| && d !in cols ==> Geq(row[c], row[d])
  }

  /** The columns of the k largest scores, as some selection would find them. */
  method TopColumns(row: seq<Score>, k: nat) returns (cols: seq<int>)
    requires k <= |row|
    ensures |cols| == k && Dominant(row, cols)
  {
    cols := [];
    for i := 0 to k
      invariant |cols| == i && Dominant(row, cols)
    {
      var best := NextColumn(row, cols);
      Extends(row, cols, best);
      cols := cols + [best];
    }
  }

  lemma Extends(row: seq<Score>, cols: seq<int>, best: int)
    requires Dominant(row, cols) && 0 <= best < |row| && best !in cols
    requires forall d :: 0 <= d < |row| && d !in cols ==> Geq(row[best], row[d])
    ensures Dominant(row, cols + [best])
  {
  }

  ghost function Columns(n: nat): set<int> {
    if n == 0 then {} else Columns(n - 1) + {n - 1}
  }

  lemma {:induction false} ColumnsExact(n: nat)
    ensures |Columns(n)| == n && forall c :: c in Columns(n) <==> 0 <= c < n
  {
    if n > 0 { ColumnsExact(n - 1); }
  }

  lemma Remaining(row: seq<Score>, cols: seq<int>)
    requires Distinct(cols) && |cols| < |row|
    ensures exists d :: 0 <= d < |row| && d !in cols
  {
    MembersSize(cols);
    ColumnsExact(|row|);
    if forall d :: 0 <= d < |row| ==> d in cols {
      SubsetSize(Columns(|row|), Members(cols));
    }
  }

  ghost function Members(s: seq<int>): set<int> { set c | c in s }

  lemma {:induction false} MembersSize(s: seq<int>)
    requires Distinct(s)
    ensures |Members(s)| == |s|
  {
    if |s| > 0 {
      var n := |s| - 1;
      MembersSize(s[..n]);
      assert s == s[..n] + [s[n]];
      assert Members(s) == Members(s[..n]) + {s[n]};
      assert s[n] !in s[..n];
    }
  }

  method NextColumn(row: seq<Score>, cols: seq<int>) returns (best: int)
    requires Dominant(row, cols) && |cols| < |row|
    ensures 0 <= best < |row| && best !in cols
    ensures forall d :: 0 <= d < |row| && d !in cols ==> Geq(row[best], row[d])
  {
    Remaining(row, cols);
    best := -1;
    for d := 0 to |row|
      invariant best == -1 ==> forall e :: 0 <= e < d ==> e in cols
      invariant best != -1 ==>
                  0 <= best < d && best !in cols && forall e :: 0 <= e < d && e !in cols ==> Geq(row[best], row[e])
    {
      if d !in cols && (best == -1 || !Geq(row[best], row[d])) { best := d; }
    }
  }

  // ----- relative indices, sorted, the sentinel last

  /** A chosen column relative to the row's start, or the sentinel if its score is not finite. */
  function Relative(row: seq<Score>, ks: nat, c: int): int {
    if 0 <= c < |row| && row[c].Fin? then c - ks else SENTINEL
  }

  /** m ascending values below the sentinel, then sentinels. */
  ghost predicate Shape(s: seq<int>, m: nat) {
    && m <= |s| && (forall a, b :: 0 <= a < b < m ==> s[a] < s[b])
    && (forall a :: 0 <= a < m ==> s[a] < SENTINEL) && forall a :: m <= a < |s| ==> s[a] == SENTINEL
  }

  lemma ConsShape(s: seq<int>, m: nat, x: int)
    requires Shape(s, m) && x <= SENTINEL
    requires if x < SENTINEL then forall y :: y in s ==> x < y else m == 0
    ensures Shape([x] + s, if x < SENTINEL then m + 1 else m)
  {
    assert forall a :: 0 <= a < |s| ==> s[a] in s;
  }

  lemma ShapeLow(s: seq<int>, m: nat)
    requires Shape(s, m) && |s| > 0
    ensures forall y :: y in s ==> s[0] <= y
    ensures s[0] < SENTINEL ==> m > 0 && Shape(s[1..], m - 1) && forall y :: y in s[1..] ==> s[0] < y
    ensures s[0] == SENTINEL ==> m == 0
  {
  }

  lemma {:induction false} InsertShape(s: seq<int>, m: nat, x: int)
    requires Shape(s, m) && x <= SENTINEL && (x < SENTINEL ==> x !in s)
    ensures Shape(Insert(s, x), if x < SENTINEL then m + 1 else m)
    ensures |Insert(s, x)| == |s| + 1 && forall y :: y in Insert(s, x) <==> y == x || y in s
    decreases |s|
  {
    hide Shape;
    if |s| == 0 {
      ConsEmpty(s, m, x);
    } else {
      ShapeLow(s, m);
      if x <= s[0] {
        LowBound(s, m);
        ConsShape(s, m, x);
      } else {
        assert s == [s[0]] + s[1..];
        InsertShape(s[1..], m - 1, x);
        ConsShape(Insert(s[1..], x), if x < SENTINEL then m else m - 1, s[0]);
      }
    }
  }

  lemma LowBound(s: seq<int>, m: nat)
    requires Shape(s, m) && |s| > 0
    ensures s[0] <= SENTINEL
  {
  }

  lemma ConsEmpty(s: seq<int>, m: nat, x: int)
    requires Shape(s, m) && |s| == 0 && x <= SENTINEL
    ensures m == 0 && Shape([x] + s, if x < SENTINEL then 1 else 0)
  {
  }

  /** How many entries are below the sentinel. */
  function Finite(s: seq<int>): nat {
    if |s| == 0 then 0 else Finite(s[..|s| - 1]) + if s[|s| - 1] < SENTINEL then 1 else 0
  }

  lemma {:induction false} SortShape(s: seq<int>)
    requires forall a :: 0 <= a < |s| ==> s[a] <= SENTINEL
    requires forall a, b :: 0 <= a < b < |s| && s[a] < SENTINEL ==> s[a] != s[b]
    ensures Shape(Sort(s), Finite(s)) && |Sort(s)| == |s|
    ensures forall y :: y in Sort(s) <==> y in s
  {
    if |s| > 0 {
      var n := |s| - 1;
      SortShape(s[..n]);
      assert s == s[..n] + [s[n]];
      InsertShape(Sort(s[..n]), Finite(s[..n]), s[n]);
    }
  }

  // ----- the contract

  /** How many indices the row holds. */
  ghost function Count(row: seq<Score>, ks: nat, ke: nat, topk: nat): nat {
    Min(topk, |Eligibles(row, ks, ke)|)
  }

  predicate Beats(row: seq<Score>, c: int, d: int) {
    0 <= c < |row| && 0 <= d < |row| && row[c].Fin? && row[d].Fin? && row[c].value >= row[d].value
  }

  /** Ascending relative indices of eligible columns that dominate every other eligible column, then only -1. */
  ghost predicate RowContract(row: seq<Score>, ks: nat, ke: nat, topk: nat, out: seq<int>) {
    var m := Count(row, ks, ke, topk);
    && |out| == topk && (forall a, b :: 0 <= a < b < m ==> out[a] < out[b])
    && (forall a :: 0 <= a < m ==> Eligible(row, ks, ke, ks + out[a]))
    && (forall a :: m <= a < topk ==> out[a] == -1)
    && forall a, d :: 0 <= a < m && Eligible(row, ks, ke, d) && (d - ks) !in out[..m] ==> Beats(row, ks + out[a], d)
  }

  // ----- one row

  /** The relative values of chosen columns. */
  function Relatives(row: seq<Score>, ks: nat, cols: seq<int>): (r: seq<int>)
    ensures |r| == |cols|
  {
    seq(|cols|, j requires 0 <= j < |cols| => Relative(row, ks, cols[j]))
  }

  /** Sentinels become -1, and the row is filled up with -1. */
  function Finished(sorted: seq<int>, topk: nat): (r: seq<int>)
    requires |sorted| <= topk
    ensures |r| == topk
  {
    seq(topk, j requires 0 <= j < topk => if j < |sorted| && sorted[j] != SENTINEL then sorted[j] else -1)
  }

  /** The finite ones among the chosen columns. */
  ghost function Chosen(row: seq<Score>, cols: seq<int>): set<int> {
    set c | c in cols && 0 <= c < |row| && row[c].Fin?
  }

  lemma {:induction false} FiniteCounts(row: seq<Score>, ks: nat, cols: seq<int>)
    requires Distinct(cols) && |row| <= SENTINEL && forall c :: c in cols ==> 0 <= c < |row|
    ensures Finite(Relatives(row, ks, cols)) == |Chosen(row, cols)|
  {
    if |cols| > 0 {
      var n := |cols| - 1;
      ButLast(row, cols);
      FiniteCounts(row, ks, cols[..n]);
      assert Relatives(row, ks, cols)[..n] == Relatives(row, ks, cols[..n]);
    }
  }

  lemma ButLast(row: seq<Score>, cols: seq<int>)
    requires |cols| > 0 && Distinct(cols) && forall c :: c in cols ==> 0 <= c < |row|
    ensures var n := |cols| - 1;
            Distinct(cols[..n]) && (forall c :: c in cols[..n] ==> 0 <= c < |row|) && 0 <= cols[n] < |row|
    ensures var n := |cols| - 1;
            |Chosen(row, cols)| == |Chosen(row, cols[..n])| + if row[cols[n]].Fin? then 1 else 0
  {
    var n := |cols| - 1;
    var front, last := cols[..n], cols[n];
    assert cols == front + [last] && last in cols && last !in front;
    assert forall c :: c in front ==> c in cols;
    ChosenSnoc(row, front, last);
  }

  lemma ChosenSnoc(row: seq<Score>, front: seq<int>, last: int)
    requires 0 <= last < |row| && last !in front
    ensures |Chosen(row, front + [last])| == |Chosen(row, front)| + if row[last].Fin? then 1 else 0
  {
    if row[last].Fin? {
      assert Chosen(row, front + [last]) == Chosen(row, front) + {last};
    } else {
      assert Chosen(row, front + [last]) == Chosen(row, front);
    }
  }

  /** The chosen finite columns are all eligible ones, or topk of them. */
  lemma ChosenCount(row: seq<Score>, masked: seq<Score>, ks: nat, ke: nat, topk: nat, cols: seq<int>)
    requires MaskedRow(row, masked, ks, ke) && Dominant(masked, cols) && |cols| == Min(topk, |row|)
    ensures |Chosen(masked, cols)| == Count(row, ks, ke, topk)
    ensures Chosen(masked, cols) <= Eligibles(row, ks, ke)
  {
    var E, C := Eligibles(row, ks, ke), Chosen(masked, cols);
    SubsetSize(C, E);
    MembersSize(cols);
    SubsetSize(C, Members(cols));
    if forall e :: e in E ==> e in C {
      assert E == C;
    } else {
      var e :| e in E && e !in C;
      assert e !in cols && masked[e].Fin?;
      forall c | c in Members(cols)
        ensures c in C
      {
        assert Geq(masked[c], masked[e]);
      }
      assert C == Members(cols);
      SomeLeft(row, cols, e);
    }
  }

  /** A column was left out, so not all columns were taken. */
  lemma SomeLeft(row: seq<Score>, cols: seq<int>, e: int)
    requires Distinct(cols) && (forall c :: c in cols ==> 0 <= c < |row|) && 0 <= e < |row| && e !in cols
    ensures |cols| < |row|
  {
    MembersSize(cols);
    ColumnsExact(|row|);
    var all := Columns(|row|);
    SubsetSize(Members(cols) + {e}, all);
  }

  /** An entry below the sentinel comes from an eligible chosen column. */
  lemma RelativeFrom(row: seq<Score>, masked: seq<Score>, ks: nat, ke: nat, cols: seq<int>, y: int)
    requires MaskedRow(row, masked, ks, ke) && y in Relatives(masked, ks, cols) && y != SENTINEL
    ensures ks + y in cols && Eligible(row, ks, ke, ks + y)
  {
    var j :| 0 <= j < |cols| && Relatives(masked, ks, cols)[j] == y;
    assert cols[j] == ks + y;
  }

  lemma RelativeOf(masked: seq<Score>, ks: nat, cols: seq<int>, d: int)
    requires d in cols && 0 <= d < |masked| && masked[d].Fin?
    ensures d - ks in Relatives(masked, ks, cols)
  {
    var j :| 0 <= j < |cols| && cols[j] == d;
    assert Relatives(masked, ks, cols)[j] == d - ks;
  }

  lemma RelativesSortable(row: seq<Score>, masked: seq<Score>, ks: nat, ke: nat, cols: seq<int>)
    requires MaskedRow(row, masked, ks, ke) && Dominant(masked, cols) && |row| <= SENTINEL
    ensures var r := Relatives(masked, ks, cols);
            && (forall a :: 0 <= a < |r| ==> r[a] <= SENTINEL)
            && forall a, b :: 0 <= a < b < |r| && r[a] < SENTINEL ==> r[a] != r[b]
  {
    assert forall a :: 0 <= a < |cols| ==> cols[a] in cols;
  }

  /** The sorted relatives are as many as the contract asks for, ascending, and come from eligible chosen columns. */
  lemma SortedShape(row: seq<Score>, masked: seq<Score>, ks: nat, ke: nat, topk: nat, cols: seq<int>, sorted: seq<int>)
    requires MaskedRow(row, masked, ks, ke) && Dominant(masked, cols) && |cols| == Min(topk, |row|) && |row| <= SENTINEL
    requires sorted == Sort(Relatives(masked, ks, cols))
    ensures Shape(sorted, Count(row, ks, ke, topk)) && |sorted| == |cols|
    ensures forall y :: y in sorted <==> y in Relatives(masked, ks, cols)
  {
    hide Sort, Shape, Eligibles, Chosen;
    RelativesSortable(row, masked, ks, ke, cols);
    SortShape(Relatives(masked, ks, cols));
    FiniteCounts(masked, ks, cols);
    ChosenCount(row, masked, ks, ke, topk, cols);
  }

  lemma SortedFrom(row: seq<Score>, masked: seq<Score>, ks: nat, ke: nat, cols: seq<int>, sorted: seq<int>, m: nat,
                   a: nat)
    requires MaskedRow(row, masked, ks, ke) && Shape(sorted, m) && a < m
    requires forall y :: y in sorted <==> y in Relatives(masked, ks, cols)
    ensures ks + sorted[a] in cols && Eligible(row, ks, ke, ks + sorted[a])
  {
    hide Relatives;
    assert sorted[a] in sorted;
    RelativeFrom(row, masked, ks, ke, cols, sorted[a]);
  }

  /** The sorted relative columns meet the contract. */
  lemma RowMeets(row: seq<Score>, masked: seq<Score>, ks: nat, ke: nat, topk: nat, cols: seq<int>, sorted: seq<int>)
    requires MaskedRow(row, masked, ks, ke) && Dominant(masked, cols) && |cols| == Min(topk, |row|) && |row| <= SENTINEL
    requires sorted == Sort(Relatives(masked, ks, cols))
    ensures |sorted| <= topk && RowContract(row, ks, ke, topk, Finished(sorted, topk))
  {
    var m := Count(row, ks, ke, topk);
    SortedShape(row, masked, ks, ke, topk, cols, sorted);
    var out := Finished(sorted, topk);
    FinishedShape(sorted, m, topk);
    hide Sort, Relatives, Count, MaskedRow, Dominant, Eligible, Beats, Shape, Finished;
    forall a: nat | a < m
      ensures ks + out[a] in cols && Eligible(row, ks, ke, ks + out[a])
    {
      SortedFrom(row, masked, ks, ke, cols, sorted, m, a);
    }
    forall a: nat, d | a < m && Eligible(row, ks, ke, d) && (d - ks) !in out[..m]
      ensures Beats(row, ks + out[a], d)
    {
      PairBeats(row, masked, ks, ke, cols, sorted, m, out, a, d);
    }
    hide RowContract;
    Assembled(row, ks, ke, topk, out);
  }

  lemma Assembled(row: seq<Score>, ks: nat, ke: nat, topk: nat, out: seq<int>)
    requires var m := Count(row, ks, ke, topk);
             && |out| == topk && m <= topk && (forall a, b :: 0 <= a < b < m ==> out[a] < out[b])
             && (forall a: nat :: a < m ==> Eligible(row, ks, ke, ks + out[a]))
             && (forall a :: m <= a < topk ==> out[a] == -1)
             && forall a: nat, d :: a < m && Eligible(row, ks, ke, d) && (d - ks) !in out[..m] ==>
                  Beats(row, ks + out[a], d)
    ensures RowContract(row, ks, ke, topk, out)
  {
  }

  lemma FinishedShape(sorted: seq<int>, m: nat, topk: nat)
    requires Shape(sorted, m) && |sorted| <= topk
    ensures var out := Finished(sorted, topk);
            && m <= topk && (forall a, b :: 0 <= a < b < m ==> out[a] < out[b])
            && (forall a :: 0 <= a < m ==> out[a] == sorted[a]) && forall a :: m <= a < topk ==> out[a] == -1
  {
  }

  lemma PairBeats(row: seq<Score>, masked: seq<Score>, ks: nat, ke: nat, cols: seq<int>, sorted: seq<int>, m: nat,
                  out: seq<int>, a: nat, d: int)
    requires MaskedRow(row, masked, ks, ke) && Dominant(masked, cols) && |row| <= SENTINEL && a < m
    requires Shape(sorted, m) && m <= |out| && forall b :: 0 <= b < m ==> out[b] == sorted[b]
    requires forall y :: y in sorted <==> y in Relatives(masked, ks, cols)
    requires ks + out[a] in cols && Eligible(row, ks, ke, ks + out[a])
    requires Eligible(row, ks, ke, d) && (d - ks) !in out[..m]
    ensures Beats(row, ks + out[a], d)
  {
    hide Relatives, MaskedRow, Dominant, Eligible, Beats, Shape;
    if d in cols { ChosenIsOut(row, masked, ks, ke, cols, sorted, m, out, d); }
    Outranks(row, masked, ks, ke, cols, ks + out[a], d);
  }

  lemma ChosenIsOut(row: seq<Score>, masked: seq<Score>, ks: nat, ke: nat, cols: seq<int>, sorted: seq<int>, m: nat,
                    out: seq<int>, d: int)
    requires MaskedRow(row, masked, ks, ke) && Eligible(row, ks, ke, d) && d in cols && |row| <= SENTINEL
    requires Shape(sorted, m) && m <= |out| && forall a :: 0 <= a < m ==> out[a] == sorted[a]
    requires forall y :: y in sorted <==> y in Relatives(masked, ks, cols)
    ensures (d - ks) in out[..m]
  {
    RelativeOf(masked, ks, cols, d);
    var a :| 0 <= a < |sorted| && sorted[a] == d - ks;
    assert out[..m][a] == d - ks;
  }

  lemma Outranks(row: seq<Score>, masked: seq<Score>, ks: nat, ke: nat, cols: seq<int>, c: int, d: int)
    requires MaskedRow(row, masked, ks, ke) && Dominant(masked, cols)
    requires c in cols && Eligible(row, ks, ke, c) && Eligible(row, ks, ke, d) && d !in cols
    ensures Beats(row, c, d)
  {
    assert Geq(masked[c], masked[d]);
  }

  // ----- all rows

  /** The fallback on a block of rows: logits masked in place, index rows overwritten. */
  method PrefillTorch(logits: array<seq<Score>>, ks: seq<nat>, ke: seq<nat>, out: array<seq<int>>, at: nat, topk: nat)
    requires logits.Length == |ks| == |ke| && at + |ks| <= out.Length
    requires forall r :: 0 <= r < logits.Length ==> |logits[r]| <= SENTINEL
    modifies logits, out
    ensures forall r :: 0 <= r < logits.Length ==> MaskedRow(old(logits[r]), logits[r], ks[r], ke[r])
    ensures forall r :: 0 <= r < logits.Length ==> RowContract(old(logits[r]), ks[r], ke[r], topk, out[at + r])
    ensures forall r :: 0 <= r < out.Length && !(at <= r < at + |ks|) ==> out[r] == old(out[r])
  {
    hide RowContract, Dominant, MaskedRow;
    for r := 0 to logits.Length
      invariant forall q :: 0 <= q < r ==> MaskedRow(old(logits[q]), logits[q], ks[q], ke[q])
      invariant forall q :: 0 <= q < r ==> RowContract(old(logits[q]), ks[q], ke[q], topk, out[at + q])
      invariant forall q :: r <= q < logits.Length ==> logits[q] == old(logits[q])
      invariant forall q :: 0 <= q < out.Length && !(at <= q < at + |ks|) ==> out[q] == old(out[q])
    {
      var masked, indices := TopRow(logits[r], ks[r], ke[r], topk);
      logits[r] := masked;
      out[at + r] := indices;
    }
  }

  method TopRow(row: seq<Score>, ks: nat, ke: nat, topk: nat) returns (masked: seq<Score>, indices: seq<int>)
    requires |row| <= SENTINEL
    ensures MaskedRow(row, masked, ks, ke) && RowContract(row, ks, ke, topk, indices)
  {
    masked := MaskFill(row, ks, ke);
    var cols := TopColumns(masked, Min(topk, |row|));
    var sorted := Sort(Relatives(masked, ks, cols));
    RowMeets(row, masked, ks, ke, topk, cols, sorted);
    indices := Finished(sorted, topk);
  }

  /** What happens to candidate blocks: nothing, the scores are masked to them, or they are published from the scores.
      Either kernel sees the row's column range. */
  datatype Candidates =
    | NoCandidates
    | Mask(keep: (seq<Score>, nat, nat, seq<int>) -> seq<Score>)
    | Publish(pick: (seq<Score>, nat, nat) -> seq<int>)

  function Filtered(mode: Candidates, row: seq<Score>, ks: nat, ke: nat, cand: seq<int>): seq<Score> {
    if mode.Mask? then mode.keep(row, ks, ke, cand) else row
  }

  function Published(mode: Candidates, row: seq<Score>, ks: nat, ke: nat, cand: seq<int>): seq<int> {
    if mode.Publish? then mode.pick(row, ks, ke) else cand
  }

  /** The scores are a kernel of the row, and every filtered row has an int32 number of columns. */
  ghost predicate Scorable(score: nat -> seq<Score>, mode: Candidates, ks: seq<nat>, ke: seq<nat>, cand: seq<seq<int>>)
    requires |ks| == |ke| == |cand|
  {
    forall r: nat :: r < |cand| ==> |Filtered(mode, score(r), ks[r], ke[r], cand[r])| <= SENTINEL
  }

  /** One row by mode: without candidates the row itself is selected from and its candidates stay; a masking layer
      selects from what the mask kernel keeps and leaves the candidates; a publishing layer selects from the row itself
      and its candidates become what the block kernel picks. */
  ghost predicate ModeKept(mode: Candidates, row: seq<Score>, ks: nat, ke: nat, topk: nat, was: seq<int>, now: seq<int>,
                           out: seq<int>) {
    match mode
    case NoCandidates => RowContract(row, ks, ke, topk, out) && now == was
    case Mask(keep) => RowContract(keep(row, ks, ke, was), ks, ke, topk, out) && now == was
    case Publish(pick) => RowContract(row, ks, ke, topk, out) && now == pick(row, ks, ke)
  }

  lemma ModeRow(mode: Candidates, row: seq<Score>, ks: nat, ke: nat, topk: nat, was: seq<int>, now: seq<int>,
                out: seq<int>)
    requires RowContract(Filtered(mode, row, ks, ke, was), ks, ke, topk, out)
    requires now == Published(mode, row, ks, ke, was)
    ensures ModeKept(mode, row, ks, ke, topk, was, now, out)
  {
    hide RowContract;
  }

  /** The row-chunked prefill loop: for any block height every row meets the contract on its own filtered scores, and
      candidates are published row by row. A height of zero or less means one block; zero rows then fail. */
  method Prefill(score: nat -> seq<Score>, mode: Candidates, ks: seq<nat>, ke: seq<nat>, cand: array<seq<int>>,
                 out: array<seq<int>>, topk: nat, rowChunk: int) returns (ok: bool)
    requires |ks| == |ke| == cand.Length == out.Length && cand != out && Scorable(score, mode, ks, ke, cand[..])
    modifies cand, out
    ensures ok <==> rowChunk > 0 || |ks| > 0
    ensures ok ==> forall r: nat :: r < |ks| ==>
              && RowContract(Filtered(mode, score(r), ks[r], ke[r], old(cand[r])), ks[r], ke[r], topk, out[r])
              && cand[r] == Published(mode, score(r), ks[r], ke[r], old(cand[r]))
    ensures ok ==> forall r: nat :: r < |ks| ==>
              ModeKept(mode, score(r), ks[r], ke[r], topk, old(cand[r]), cand[r], out[r])
  {
    hide RowContract, Filtered, Published, ModeKept;
    var total := |ks|;
    var step: int := if rowChunk > 0 then rowChunk else total;
    if step == 0 { return false; }
    ok := true;
    var r0: nat := 0;
    while r0 < total
      invariant r0 <= total
      invariant forall r: nat :: r < r0 ==>
                  RowContract(Filtered(mode, score(r), ks[r], ke[r], old(cand[r])), ks[r], ke[r], topk, out[r])
      invariant forall r: nat :: r < r0 ==> cand[r] == Published(mode, score(r), ks[r], ke[r], old(cand[r]))
      invariant forall r :: r0 <= r < total ==> cand[r] == old(cand[r])
      decreases total - r0
    {
      var r1: nat := Min(r0 + step, total);
      PrefillBlock(score, mode, ks, ke, cand, out, topk, r0, r1);
      r0 := r1;
    }
    forall r: nat | r < |ks|
      ensures ModeKept(mode, score(r), ks[r], ke[r], topk, old(cand[r]), cand[r], out[r])
    {
      ModeRow(mode, score(r), ks[r], ke[r], topk, old(cand[r]), cand[r], out[r]);
    }
  }

  /** Candidates of a block: scores filtered in place, candidate rows published. */
  method FilterBlock(ghost score: nat -> seq<Score>, mode: Candidates, ks: seq<nat>, ke: seq<nat>,
                     logits: array<seq<Score>>, cand: array<seq<int>>, r0: nat)
    requires |ks| == |ke| == cand.Length
    requires r0 + logits.Length <= cand.Length && forall q :: 0 <= q < logits.Length ==> logits[q] == score(r0 + q)
    modifies logits, cand
    ensures forall q :: 0 <= q < logits.Length ==>
              logits[q] == Filtered(mode, score(r0 + q), ks[r0 + q], ke[r0 + q], old(cand[r0 + q]))
    ensures forall r: nat :: r0 <= r < r0 + logits.Length ==>
              cand[r] == Published(mode, score(r), ks[r], ke[r], old(cand[r]))
    ensures forall r :: 0 <= r < cand.Length && !(r0 <= r < r0 + logits.Length) ==> cand[r] == old(cand[r])
  {
    hide Filtered, Published;
    for i := 0 to logits.Length
      invariant forall q :: 0 <= q < i ==>
                  logits[q] == Filtered(mode, score(r0 + q), ks[r0 + q], ke[r0 + q], old(cand[r0 + q]))
      invariant forall q :: i <= q < logits.Length ==> logits[q] == score(r0 + q)
      invariant forall r: nat :: r0 <= r < r0 + i ==> cand[r] == Published(mode, score(r), ks[r], ke[r], old(cand[r]))
      invariant forall r :: 0 <= r < cand.Length && !(r0 <= r < r0 + i) ==> cand[r] == old(cand[r])
    {
      var row := logits[i];
      logits[i] := Filtered(mode, row, ks[r0 + i], ke[r0 + i], cand[r0 + i]);
      cand[r0 + i] := Published(mode, row, ks[r0 + i], ke[r0 + i], cand[r0 + i]);
    }
  }

  /** Rows r0..r1. */
  method PrefillBlock(score: nat -> seq<Score>, mode: Candidates, ks: seq<nat>, ke: seq<nat>, cand: array<seq<int>>,
                      out: array<seq<int>>, topk: nat, r0: nat, r1: nat)
    requires |ks| == |ke| == cand.Length == out.Length && cand != out && r0 <= r1 <= |ks|
    requires forall r: nat :: r0 <= r < r1 ==> |Filtered(mode, score(r), ks[r], ke[r], cand[r])| <= SENTINEL
    modifies cand, out
    ensures forall r: nat :: r0 <= r < r1 ==>
              RowContract(Filtered(mode, score(r), ks[r], ke[r], old(cand[r])), ks[r], ke[r], topk, out[r])
    ensures forall r: nat :: r0 <= r < r1 ==> cand[r] == Published(mode, score(r), ks[r], ke[r], old(cand[r]))
    ensures forall r :: 0 <= r < |ks| && !(r0 <= r < r1) ==> cand[r] == old(cand[r]) && out[r] == old(out[r])
  {
    hide RowContract, Filtered, Published, MaskedRow;
    var n: nat := r1 - r0;
    var logits := new seq<Score>[n](i requires 0 <= i < n => score(r0 + i));
    FilterBlock(score, mode, ks, ke, logits, cand, r0);
    PrefillTorch(logits, ks[r0..r1], ke[r0..r1], out, r0, topk);
    forall r: nat | r0 <= r < r1
      ensures RowContract(Filtered(mode, score(r), ks[r], ke[r], old(cand[r])), ks[r], ke[r], topk, out[r])
      ensures cand[r] == Published(mode, score(r), ks[r], ke[r], old(cand[r]))
    {
      var q: nat := r - r0;
      assert r == r0 + q && ks[r0..r1][q] == ks[r] && ke[r0..r1][q] == ke[r];
    }
  }
}
