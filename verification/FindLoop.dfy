/** The degenerate-repetition detector: a scanner that, for every unit length, counts how often
    the unit under the cursor repeats back to back and then jumps past the repetitions. */
module FindLoop {
  import opened Basics

  /** The best run so far: how often its unit repeats, and the unit; reps 0 means none. */
  datatype Run = Run(reps: nat, unit: string)

  const NONE := Run(0, "")

  /** A unit is looked at only if it has an alphanumeric and no newline. */
  predicate Wanted(unit: string, isAlnum: char -> bool) {
    '\n' !in unit && exists c :: c in unit && isAlnum(c)
  }

  /** r * size, by addition. */
  function Times(r: nat, size: nat): nat {
    if r == 0 then 0 else Times(r - 1, size) + size
  }

  lemma {:induction false} TimesIsProduct(r: nat, size: nat)
    ensures Times(r, size) == r * size
  {
    if r > 0 {
      TimesIsProduct(r - 1, size);
      assert r * size == (r - 1) * size + size;
    }
  }

  lemma {:induction false} TimesMonotone(r: nat, k: nat, size: nat)
    requires r <= k
    ensures Times(r, size) <= Times(k, size)
    decreases k
  {
    if r < k { TimesMonotone(r, k - 1, size); }
  }

  /** Another copy of the unit s[i..i+size] starts at e. */
  predicate CopyAt(s: string, i: nat, e: nat, size: nat)
    requires i + size <= |s|
  {
    Slice(s, e, e + size) == s[i..i + size]
  }

  lemma CopyFits(s: string, i: nat, e: nat, size: nat)
    requires size > 0 && i + size <= |s| && e <= |s| && CopyAt(s, i, e, size)
    ensures e + size <= |s| && s[e..e + size] == s[i..i + size]
  {
    assert |s[i..i + size]| == size;
  }

  /** The inner while loop: how many copies of s[i..i+size] follow each other from i, given reps already seen. */
  function Reps(s: string, i: nat, size: nat, reps: nat): (r: nat)
    requires size > 0 && i + Times(reps, size) <= |s| && i + size <= |s|
    ensures r >= reps && i + Times(r, size) <= |s|
    decreases |s| - i - Times(reps, size)
  {
    var e := i + Times(reps, size);
    if CopyAt(s, i, e, size) then
      CopyFits(s, i, e, size);
      Reps(s, i, size, reps + 1)
    else reps
  }

  function Better(best: Run, reps: nat, unit: string, minReps: int): Run {
    if reps >= minReps && reps > best.reps then Run(reps, unit) else best
  }

  /** One pass of the outer loop: where the cursor goes, and the best run after it. */
  function Step(s: string, size: nat, i: nat, best: Run, minReps: int, isAlnum: char -> bool): (next: (nat, Run))
    requires size > 0 && i + size <= |s|
    ensures next.0 > i
  {
    var unit := s[i..i + size];
    if !Wanted(unit, isAlnum) then (i + 1, best)
    else
      var reps := Reps(s, i, size, 1);
      (i + Max(1, Times(reps, size)), Better(best, reps, unit, minReps))
  }

  /** The outer while loop for one unit length. */
  function Scan(s: string, size: nat, i: nat, best: Run, minReps: int, isAlnum: char -> bool): Run
    requires size > 0
    decreases |s| - i
  {
    if i >= |s| - size then best
    else
      var (next, best') := Step(s, size, i, best, minReps, isAlnum);
      Scan(s, size, next, best', minReps, isAlnum)
  }

  function ScanSizes(s: string, size: nat, maxUnit: int, best: Run, minReps: int, isAlnum: char -> bool): Run
    requires size > 0
    decreases maxUnit - size
  {
    if size > maxUnit then best
    else ScanSizes(s, size + 1, maxUnit, Scan(s, size, 0, best, minReps, isAlnum), minReps, isAlnum)
  }

  /** The scanner's three nested loops, innermost first. */
  method CountReps(s: string, i: nat, size: nat) returns (reps: nat)
    requires size > 0 && i + size <= |s|
    ensures reps == Reps(s, i, size, 1)
  {
    hide CopyAt, NextCopy;
    reps := 1;
    while NextCopy(s, i, size, reps)
      invariant i + Times(reps, size) <= |s|
      invariant Reps(s, i, size, reps) == Reps(s, i, size, 1)
      decreases |s| - i - Times(reps, size)
    {
      NextCopyIs(s, i, size, reps);
      reps := reps + 1;
    }
    NextCopyIs(s, i, size, reps);
  }

  /** How far the cursor jumps over the copies it counted. */
  function Jump(reps: nat, size: nat): (r: nat)
    ensures r == Max(1, Times(reps, size))
  {
    TimesIsProduct(reps, size);
    Max(1, reps * size)
  }

  /** The inner loop's guard. */
  predicate NextCopy(s: string, i: nat, size: nat, reps: nat)
    requires i + size <= |s|
  {
    TimesIsProduct(reps, size);
    TimesIsProduct(reps + 1, size);
    Slice(s, i + reps * size, i + (reps + 1) * size) == s[i..i + size]
  }

  lemma NextCopyIs(s: string, i: nat, size: nat, reps: nat)
    requires size > 0 && i + size <= |s|
    ensures var e := i + Times(reps, size);
            NextCopy(s, i, size, reps) <==> CopyAt(s, i, e, size)
    ensures i + Times(reps, size) <= |s| && NextCopy(s, i, size, reps) ==> i + Times(reps + 1, size) <= |s|
  {
    TimesIsProduct(reps, size);
    TimesIsProduct(reps + 1, size);
    var e := i + Times(reps, size);
    if e <= |s| && CopyAt(s, i, e, size) { CopyFits(s, i, e, size); }
  }

  method ScanOne(s: string, size: nat, minReps: int, isAlnum: char -> bool, start: Run) returns (best: Run)
    requires size > 0
    ensures best == Scan(s, size, 0, start, minReps, isAlnum)
  {
    hide Wanted, Better, Reps;
    best := start;
    var i: nat := 0;
    while i < |s| - size
      invariant Scan(s, size, i, best, minReps, isAlnum) == Scan(s, size, 0, start, minReps, isAlnum)
      decreases |s| - i
    {
      ghost var step := Step(s, size, i, best, minReps, isAlnum);
      var unit := s[i..i + size];
      if !Wanted(unit, isAlnum) {
        i := i + 1;
      } else {
        var reps := CountReps(s, i, size);
        best := Better(best, reps, unit, minReps);
        i := i + Jump(reps, size);
      }
      assert (i, best) == step;
    }
  }

  method Find(s: string, minReps: int, maxUnit: int, isAlnum: char -> bool) returns (best: Run)
    ensures best == ScanSizes(s, 2, maxUnit, NONE, minReps, isAlnum)
  {
    best := NONE;
    var size := 2;
    while size <= maxUnit
      invariant size >= 2
      invariant ScanSizes(s, size, maxUnit, best, minReps, isAlnum) == ScanSizes(s, 2, maxUnit, NONE, minReps, isAlnum)
      decreases maxUnit - size
    {
      best := ScanOne(s, size, minReps, isAlnum, best);
      size := size + 1;
    }
  }

  // ----- what a run is

  /** s[a..b) repeats with period size. */
  predicate Periodic(s: string, a: nat, b: nat, size: nat) {
    a <= b <= |s| && forall j :: a <= j && j + size < b ==> s[j] == s[j + size]
  }

  /** Two overlapping stretches with the same period, sharing at least a period, are one stretch. */
  lemma PeriodicJoin(s: string, a: nat, b: nat, c: nat, d: nat, size: nat)
    requires Periodic(s, a, b, size) && Periodic(s, c, d, size)
    requires a <= c && c + size <= b
    ensures Periodic(s, a, Max(b, d), size)
  {
  }

  lemma {:induction false} PeriodicMultiple(s: string, a: nat, b: nat, size: nat, x: nat, k: nat)
    requires Periodic(s, a, b, size)
    requires a <= x && x + Times(k, size) < b
    ensures s[x] == s[x + Times(k, size)]
    decreases k
  {
    if k > 0 {
      PeriodicMultiple(s, a, b, size, x, k - 1);
    }
  }

  /** One more copy of the unit extends the periodic stretch by a period. */
  lemma CopyExtends(s: string, i: nat, size: nat, reps: nat)
    requires size > 0 && reps >= 1
    requires i + Times(reps + 1, size) <= |s|
    requires Periodic(s, i, i + Times(reps, size), size)
    requires CopyAt(s, i, i + Times(reps, size), size)
    ensures Periodic(s, i, i + Times(reps + 1, size), size)
  {
    var e := i + Times(reps, size);
    forall j: nat | i <= j && j + size < e + size
      ensures s[j] == s[j + size]
    {
      if j + size >= e {
        var t := j + size - e;
        assert s[e..e + size][t] == s[i..i + size][t];
        PeriodicMultiple(s, i, e, size, i + t, reps - 1);
      }
    }
  }

  /** What the counting loop returns: the copies it counted are there, and there is no next one. */
  lemma {:induction false} RepsCounts(s: string, i: nat, size: nat, reps: nat)
    requires size > 0 && reps >= 1
    requires i + Times(reps, size) <= |s| && i + size <= |s|
    requires Periodic(s, i, i + Times(reps, size), size)
    ensures var e := i + Times(Reps(s, i, size, reps), size);
            Periodic(s, i, e, size) && !CopyAt(s, i, e, size)
    decreases |s| - i - Times(reps, size)
  {
    hide Periodic, CopyAt;
    var e := i + Times(reps, size);
    if CopyAt(s, i, e, size) {
      CopyFits(s, i, e, size);
      CopyExtends(s, i, size, reps);
      RepsCounts(s, i, size, reps + 1);
    }
  }

  lemma RepsFromOne(s: string, i: nat, size: nat)
    requires size > 0 && i + size <= |s|
    ensures var e := i + Times(Reps(s, i, size, 1), size);
            Periodic(s, i, e, size) && !CopyAt(s, i, e, size)
  {
    hide Reps;
    RepsCounts(s, i, size, 1);
  }

  /** The counting loop does not stop before the end of a periodic stretch. */
  lemma RepsMaximal(s: string, i: nat, b: nat, size: nat)
    requires size > 0 && i + size <= |s|
    requires Periodic(s, i, b, size)
    ensures i + Times(Reps(s, i, size, 1), size) + size > b
  {
    var r := Reps(s, i, size, 1);
    RepsFromOne(s, i, size);
    var e := i + Times(r, size);
    if e + size <= b {
      forall x: nat | i <= x < i + size
        ensures s[x] == s[x + Times(r, size)]
      {
        PeriodicMultiple(s, i, b, size, x, r);
      }
      SameUnit(s, i, e, size);
    }
  }

  lemma SameUnit(s: string, i: nat, e: nat, size: nat)
    requires i <= e && e + size <= |s|
    requires forall x: nat :: i <= x < i + size ==> s[x] == s[x + (e - i)]
    ensures CopyAt(s, i, e, size)
  {
    var u, v := s[i..i + size], s[e..e + size];
    forall t | 0 <= t < |u|
      ensures u[t] == v[t]
    {
      assert s[i + t] == s[i + t + (e - i)];
    }
    assert u == v;
  }

  /** Inside a run every window of one period holds the same characters. */
  lemma WantedRotation(s: string, a: nat, b: nat, size: nat, i: nat, isAlnum: char -> bool)
    requires Periodic(s, a, b, size)
    requires a <= i < a + size && i + size <= b
    ensures Wanted(s[i..i + size], isAlnum) <==> Wanted(s[a..a + size], isAlnum)
  {
    var u, v := s[a..a + size], s[i..i + size];
    forall c
      ensures c in u <==> c in v
    {
      if c in u {
        var x :| 0 <= x < size && u[x] == c;
        assert c == if a + x >= i then v[a + x - i] else v[a + x + size - i];
      }
      if c in v {
        var x :| 0 <= x < size && v[x] == c;
        assert c == if i + x < a + size then u[i + x - a] else u[i + x - size - a];
      }
    }
  }

  // ----- completeness

  lemma {:induction false} ScanKeeps(s: string, size: nat, i: nat, best: Run, minReps: int, isAlnum: char -> bool)
    requires size > 0
    ensures Scan(s, size, i, best, minReps, isAlnum).reps >= best.reps
    decreases |s| - i
  {
    if i < |s| - size {
      var (next, best') := Step(s, size, i, best, minReps, isAlnum);
      ScanKeeps(s, size, next, best', minReps, isAlnum);
    }
  }

  lemma CountFits(size: nat, k: nat, r: nat, length: nat)
    requires size > 0 && Times(r, size) + size > length && length >= Times(k, size)
    ensures r >= k
  {
    if r < k { TimesMonotone(r + 1, k, size); }
  }

  /** A cursor in the first period of the run, or one whose copies reach a period into it, counts k. */
  lemma RunCounted(s: string, size: nat, i: nat, a: nat, b: nat, k: nat)
    requires size > 0 && i + size <= |s|
    requires Periodic(s, a, b, size) && b - a >= Times(k, size) + size - 1
    requires i < a + size
    requires i >= a || i + Times(Reps(s, i, size, 1), size) >= a + size
    ensures Reps(s, i, size, 1) >= k
  {
    hide Periodic, CopyAt, Reps;
    var reps := Reps(s, i, size, 1);
    var e := i + Times(reps, size);
    RepsFromOne(s, i, size);
    if i < a {
      PeriodicJoin(s, i, e, a, b, size);
      PeriodicPrefix(s, i, Max(e, b), size, b);
    } else {
      PeriodicSuffix(s, a, b, size, i);
    }
    RepsMaximal(s, i, b, size);
    CountFits(size, k, reps, b - i);
  }

  lemma PeriodicPrefix(s: string, a: nat, b: nat, size: nat, c: nat)
    requires Periodic(s, a, b, size) && a <= c <= b
    ensures Periodic(s, a, c, size)
  {
  }

  lemma PeriodicSuffix(s: string, a: nat, b: nat, size: nat, c: nat)
    requires Periodic(s, a, b, size) && a <= c <= b
    ensures Periodic(s, c, b, size)
  {
  }

  /** A step from a cursor before the end of the run's first period counts k, or stays before it. */
  lemma StepComplete(s: string, size: nat, i: nat, best: Run, minReps: int, isAlnum: char -> bool, a: nat, b: nat,
                     k: nat)
    requires size > 0 && k >= minReps && k >= 1 && i + size <= |s|
    requires Periodic(s, a, b, size) && b - a >= Times(k, size) + size - 1
    requires a + size <= b && Wanted(s[a..a + size], isAlnum)
    requires i < a + size
    ensures var (next, best') := Step(s, size, i, best, minReps, isAlnum); next < a + size || best'.reps >= k
  {
    hide Periodic, Wanted, Reps;
    TimesMonotone(1, k, size);
    if Wanted(s[i..i + size], isAlnum) {
      var reps := Reps(s, i, size, 1);
      if i >= a || i + Times(reps, size) >= a + size {
        RunCounted(s, size, i, a, b, k);
      }
    } else if i >= a {
      WantedRotation(s, a, b, size, i, isAlnum);
    }
  }

  /** A run s[a..b) that leaves room for k copies from every cursor in its first period is
      counted with at least k repetitions, wherever the jumps of the scanner land. */
  lemma {:induction false} ScanComplete(s: string, size: nat, i: nat, best: Run, minReps: int, isAlnum: char -> bool,
                                        a: nat, b: nat, k: nat)
    requires size > 0 && k >= 2 && k >= minReps
    requires Periodic(s, a, b, size) && b - a >= Times(k, size) + size - 1
    requires a + size <= b && Wanted(s[a..a + size], isAlnum)
    requires i < a + size
    ensures Scan(s, size, i, best, minReps, isAlnum).reps >= k
    decreases |s| - i
  {
    TimesMonotone(2, k, size);
    assert i < |s| - size;
    var (next, best') := Step(s, size, i, best, minReps, isAlnum);
    StepComplete(s, size, i, best, minReps, isAlnum, a, b, k);
    if best'.reps >= k {
      ScanKeeps(s, size, next, best', minReps, isAlnum);
    } else {
      ScanComplete(s, size, next, best', minReps, isAlnum, a, b, k);
    }
  }

  lemma {:induction false} ScanSizesKeeps(s: string, size: nat, maxUnit: int, best: Run, minReps: int,
                                          isAlnum: char -> bool)
    requires size > 0
    ensures ScanSizes(s, size, maxUnit, best, minReps, isAlnum).reps >= best.reps
    decreases maxUnit - size
  {
    if size <= maxUnit {
      ScanKeeps(s, size, 0, best, minReps, isAlnum);
      ScanSizesKeeps(s, size + 1, maxUnit, Scan(s, size, 0, best, minReps, isAlnum), minReps, isAlnum);
    }
  }

  lemma {:induction false} ScanSizesComplete(s: string, from: nat, maxUnit: int, best: Run, minReps: int,
                                             isAlnum: char -> bool, size: nat, a: nat, b: nat, k: nat)
    requires 0 < from <= size <= maxUnit && k >= 2 && k >= minReps
    requires Periodic(s, a, b, size) && b - a >= Times(k, size) + size - 1
    requires a + size <= b && Wanted(s[a..a + size], isAlnum)
    ensures ScanSizes(s, from, maxUnit, best, minReps, isAlnum).reps >= k
    decreases maxUnit - from
  {
    var best' := Scan(s, from, 0, best, minReps, isAlnum);
    if from == size {
      ScanComplete(s, size, 0, best, minReps, isAlnum, a, b, k);
      ScanSizesKeeps(s, from + 1, maxUnit, best', minReps, isAlnum);
    } else {
      ScanSizesComplete(s, from + 1, maxUnit, best', minReps, isAlnum, size, a, b, k);
    }
  }

  /** Completeness: any run of a wanted unit of length size, long enough for k >= max(2, minReps)
      copies at every alignment, forces a result of at least k repetitions. With k == minReps this
      is the length (minReps + 1) * size - 1 from which a loop is always reported. */
  lemma FindComplete(s: string, minReps: int, maxUnit: int, isAlnum: char -> bool, size: nat, a: nat, b: nat, k: nat)
    requires 2 <= size <= maxUnit && k >= 2 && k >= minReps && b <= |s| && b - a >= (k + 1) * size - 1
    requires a + size <= b && forall j :: a <= j && j + size < b ==> s[j] == s[j + size]
    requires '\n' !in s[a..a + size] && exists j :: a <= j < a + size && isAlnum(s[j])
    ensures ScanSizes(s, 2, maxUnit, NONE, minReps, isAlnum).reps >= k
  {
    TimesIsProduct(k + 1, size);
    var j :| a <= j < a + size && isAlnum(s[j]);
    assert s[a..a + size][j - a] == s[j];
    ScanSizesComplete(s, 2, maxUnit, NONE, minReps, isAlnum, size, a, b, k);
  }

  // ----- the bound is tight

  /** One stray character, then a run whose units have a single letter each. */
  function OffsetRun(size: nat, n: nat): (s: string)
    requires size > 0
    ensures |s| == n
  {
    seq(n, p => if p == 0 then '!' else if (p - 1) % size == 0 then 'a' else '-')
  }

  lemma Remainder(x: nat, q: nat, d: nat, r: nat)
    requires x == q * d + r && r < d
    ensures x % d == r
  {
    DivMod(q, d, r);
  }

  lemma AddedMultiple(x: nat, m: nat, d: nat)
    requires d > 0
    ensures (x + m) % d == (x % d + m) % d
  {
    var q, y := x / d, x % d + m;
    var s, r := y / d, y % d;
    Distribute(q, s, d);
    assert x == q * d + x % d && y == s * d + r;
    Remainder(x + m, q + s, d, r);
  }

  /** In the run letters are whole units apart. */
  lemma LetterGap(size: nat, n: nat, p: nat, m: nat)
    requires size > 0 && 1 <= p && p + m < n && OffsetRun(size, n)[p] == 'a'
    ensures OffsetRun(size, n)[p + m] == 'a' <==> m % size == 0
  {
    AddedMultiple(p - 1, m, size);
  }

  lemma NextPeriod(x: nat, d: nat)
    requires d > 0
    ensures (x + d) % d == x % d
  {
    Distribute(x / d, 1, d);
    Remainder(x + d, x / d + 1, d, x % d);
  }

  lemma OffsetCell(size: nat, n: nat, j: nat)
    requires 0 < size && 1 <= j && j + size < n
    ensures OffsetRun(size, n)[j] == OffsetRun(size, n)[j + size]
  {
    NextPeriod(j - 1, size);
  }

  lemma OffsetPeriodic(size: nat, n: nat)
    requires 0 < size && n >= 1
    ensures Periodic(OffsetRun(size, n), 1, n, size)
  {
    var s := OffsetRun(size, n);
    hide OffsetRun;
    forall j | 1 <= j && j + size < n
      ensures s[j] == s[j + size]
    {
      OffsetCell(size, n, j);
    }
  }

  /** A unit that is looked at has a letter. */
  lemma WantedLetter(size: nat, n: nat, i: nat, m: nat, isAlnum: char -> bool) returns (p: nat)
    requires size > 0 && m >= 2 && i + m <= n && !isAlnum('-')
    requires Wanted(OffsetRun(size, n)[i..i + m], isAlnum)
    ensures 1 <= p && i <= p < i + m && OffsetRun(size, n)[p] == 'a'
  {
    if i == 0 {
      p := 1;
    } else {
      var t :| 0 <= t < m && isAlnum(OffsetRun(size, n)[i..i + m][t]);
      p := i + t;
    }
  }

  /** A second copy of a unit lies a whole number of the run's units further. */
  lemma CopyIsMultiple(size: nat, n: nat, i: nat, m: nat, isAlnum: char -> bool)
    requires size > 0 && m >= 2 && i + m <= n && !isAlnum('-')
    requires Wanted(OffsetRun(size, n)[i..i + m], isAlnum) && CopyAt(OffsetRun(size, n), i, i + m, m)
    ensures m % size == 0
  {
    hide OffsetRun, Wanted;
    var s := OffsetRun(size, n);
    var p := WantedLetter(size, n, i, m, isAlnum);
    CopyFits(s, i, i + m, m);
    SamePlace(s, i, i + m, m, p);
    LetterGap(size, n, p, m);
  }

  lemma SamePlace(s: string, i: nat, e: nat, m: nat, p: nat)
    requires i <= p < i + m && i <= e && e + m <= |s| && s[e..e + m] == s[i..i + m]
    ensures s[p + (e - i)] == s[p]
  {
    assert s[e..e + m][p - i] == s[i..i + m][p - i];
  }

  /** No unit of another length is counted k times. */
  lemma OtherSizes(size: nat, k: nat, n: nat, i: nat, m: nat, isAlnum: char -> bool)
    requires size >= 2 && k >= 2 && n + 1 == Times(k + 1, size) && m >= 2 && m != size && i + m <= n && !isAlnum('-')
    requires Wanted(OffsetRun(size, n)[i..i + m], isAlnum)
    ensures Reps(OffsetRun(size, n), i, m, 1) < k
  {
    hide Wanted, CopyAt, OffsetRun, Times, Reps;
    var s := OffsetRun(size, n);
    AtLeastOne(1, m);
    if CopyAt(s, i, i + m, m) {
      CopyIsMultiple(size, n, i, m, isAlnum);
      MultipleIsLong(size, k, m, Reps(s, i, m, 1));
    } else {
      FirstIsLast(s, i, m);
    }
  }

  lemma FirstIsLast(s: string, i: nat, size: nat)
    requires size > 0 && i + size <= |s| && !CopyAt(s, i, i + size, size)
    ensures Times(1, size) == size && Reps(s, i, size, 1) == 1
  {
    assert Times(1, size) == size;
  }

  lemma {:induction false} TimesDoubles(k: nat, size: nat, m: nat)
    requires m >= 2 * size
    ensures Times(k, m) >= Times(k, size) + Times(k, size)
  {
    if k > 0 { TimesDoubles(k - 1, size, m); }
  }

  lemma MultipleIsLong(size: nat, k: nat, m: nat, reps: nat)
    requires size > 0 && m > 0 && m != size && m % size == 0 && k > 0
    requires Times(reps, m) < Times(k + 1, size)
    ensures reps < k
  {
    assert m >= 2 * size;
    TimesDoubles(k, size, m);
    TimesMonotone(1, k, size);
    if reps >= k { TimesMonotone(k, reps, m); }
  }

  /** The run's own length: the stray character takes the first cursor, and behind it k copies do not fit. */
  lemma OwnSize(size: nat, k: nat, n: nat, i: nat, isAlnum: char -> bool)
    requires size >= 2 && k >= 2 && n + 1 == Times(k + 1, size) && i + size <= n && (i == 0 || i >= size)
    ensures Reps(OffsetRun(size, n), i, size, 1) < k
  {
    var s := OffsetRun(size, n);
    if i == 0 {
      TimesMonotone(2, k, size);
      assert s[size] != s[0] && s[0..size][0] == s[0] && s[size..size + size][0] == s[size];
      FirstIsLast(s, 0, size);
    } else {
      var reps := Reps(s, i, size, 1);
      if reps >= k { TimesMonotone(k, reps, size); }
    }
  }

  lemma StepNothing(size: nat, k: nat, n: nat, i: nat, m: nat, isAlnum: char -> bool)
    requires size >= 2 && k >= 2 && n + 1 == Times(k + 1, size) && m >= 2 && !isAlnum('-') && isAlnum('a')
    requires i + m <= n && (m == size ==> i == 0 || i >= size)
    ensures var (next, best) := Step(OffsetRun(size, n), m, i, NONE, k, isAlnum);
            best == NONE && (m == size ==> next >= size)
  {
    var s := OffsetRun(size, n);
    hide OffsetRun, Reps, Wanted, Times;
    AtLeastOne(1, m);
    if i == 0 { FirstWanted(size, n, m, isAlnum); }
    if Wanted(s[i..i + m], isAlnum) {
      FewCopies(size, k, n, i, m, isAlnum);
      AtLeastOne(Reps(s, i, m, 1), m);
    }
  }

  lemma FewCopies(size: nat, k: nat, n: nat, i: nat, m: nat, isAlnum: char -> bool)
    requires size >= 2 && k >= 2 && n + 1 == Times(k + 1, size) && m >= 2 && !isAlnum('-')
    requires i + m <= n && (m == size ==> i == 0 || i >= size) && Wanted(OffsetRun(size, n)[i..i + m], isAlnum)
    ensures Times(1, m) == m && Reps(OffsetRun(size, n), i, m, 1) < k
  {
    hide OffsetRun, Reps, Wanted, Times;
    AtLeastOne(1, m);
    if m == size { OwnSize(size, k, n, i, isAlnum); } else { OtherSizes(size, k, n, i, m, isAlnum); }
  }

  lemma AtLeastOne(reps: nat, m: nat)
    requires reps >= 1
    ensures Times(reps, m) >= m && Times(1, m) == m
  {
    TimesMonotone(1, reps, m);
  }

  /** No unit length reports anything: no cursor the scan reaches counts enough. */
  lemma {:induction false} ScanNothing(size: nat, k: nat, n: nat, i: nat, m: nat, isAlnum: char -> bool)
    requires size >= 2 && k >= 2 && n + 1 == Times(k + 1, size) && m >= 2 && !isAlnum('-') && isAlnum('a')
    requires m == size ==> i == 0 || i >= size
    ensures Scan(OffsetRun(size, n), m, i, NONE, k, isAlnum) == NONE
    decreases n - i
  {
    hide OffsetRun, Step, Times;
    if i < n - m {
      StepNothing(size, k, n, i, m, isAlnum);
      ScanNothing(size, k, n, Step(OffsetRun(size, n), m, i, NONE, k, isAlnum).0, m, isAlnum);
    }
  }

  lemma FirstWanted(size: nat, n: nat, m: nat, isAlnum: char -> bool)
    requires size > 0 && 2 <= m <= n && isAlnum('a')
    ensures Wanted(OffsetRun(size, n)[0..m], isAlnum)
    ensures 1 + m <= n ==> Wanted(OffsetRun(size, n)[1..1 + m], isAlnum)
  {
    assert OffsetRun(size, n)[0..m][1] == 'a';
    if 1 + m <= n { assert OffsetRun(size, n)[1..1 + m][0] == 'a'; }
  }

  lemma {:induction false} SizesNothing(size: nat, k: nat, n: nat, from: nat, maxUnit: int, isAlnum: char -> bool)
    requires size >= 2 && k >= 2 && n + 1 == Times(k + 1, size) && from >= 2 && !isAlnum('-') && isAlnum('a')
    ensures ScanSizes(OffsetRun(size, n), from, maxUnit, NONE, k, isAlnum) == NONE
    decreases maxUnit - from
  {
    hide OffsetRun, Times, Scan;
    if from <= maxUnit {
      ScanNothing(size, k, n, 0, from, isAlnum);
      SizesNothing(size, k, n, from + 1, maxUnit, isAlnum);
    }
  }

  /** The length bound cannot be lowered: for every unit length and count there is a run one character short of it that
      falls between two cursors, and then no unit length up to any maximum is reported. */
  lemma FindBoundIsTight(size: nat, k: nat, maxUnit: int, isAlnum: char -> bool)
    requires size >= 2 && k >= 2 && isAlnum('a') && !isAlnum('-')
    ensures exists s :: && |s| - 1 == (k + 1) * size - 2 && Periodic(s, 1, |s|, size)
                        && 1 + size <= |s| && Wanted(s[1..1 + size], isAlnum)
                        && ScanSizes(s, 2, maxUnit, NONE, k, isAlnum) == NONE
  {
    hide OffsetRun, Periodic, Wanted, ScanSizes;
    TimesIsProduct(k + 1, size);
    TimesMonotone(2, k + 1, size);
    var n: nat := Times(k + 1, size) - 1;
    OffsetPeriodic(size, n);
    FirstWanted(size, n, size, isAlnum);
    SizesNothing(size, k, n, 2, maxUnit, isAlnum);
    assert Periodic(OffsetRun(size, n), 1, n, size);
  }

  // ----- soundness

  /** At i the text holds reps back-to-back copies of the wanted unit s[i..i+size], and no further copy. */
  predicate RepeatsAt(s: string, i: nat, size: nat, reps: nat, isAlnum: char -> bool)
    requires i + size <= |s|
  {
    var e := i + Times(reps, size);
    e <= |s| && Periodic(s, i, e, size) && !CopyAt(s, i, e, size) && Wanted(s[i..i + size], isAlnum)
  }

  /** The run is in the text, passes every filter and reaches the repetition threshold. */
  predicate Reported(s: string, run: Run, minReps: int, maxUnit: int, isAlnum: char -> bool, i: nat) {
    var size := |run.unit|;
    && 2 <= size <= maxUnit && run.reps >= minReps && run.reps >= 1
    && i + size <= |s| && s[i..i + size] == run.unit
    && RepeatsAt(s, i, size, run.reps, isAlnum)
  }

  ghost predicate Genuine(s: string, run: Run, minReps: int, maxUnit: int, isAlnum: char -> bool) {
    run == NONE || exists i: nat :: Reported(s, run, minReps, maxUnit, isAlnum, i)
  }

  lemma CountedRepeats(s: string, size: nat, i: nat, isAlnum: char -> bool)
    requires size > 0 && i + size <= |s| && Wanted(s[i..i + size], isAlnum)
    ensures RepeatsAt(s, i, size, Reps(s, i, size, 1), isAlnum)
  {
    hide Periodic, CopyAt, Wanted, Reps;
    RepsFromOne(s, i, size);
  }

  lemma CountedIsReported(s: string, size: nat, i: nat, minReps: int, maxUnit: int, isAlnum: char -> bool)
    requires 2 <= size <= maxUnit && i + size <= |s| && Wanted(s[i..i + size], isAlnum)
    requires Reps(s, i, size, 1) >= minReps
    ensures Reported(s, Run(Reps(s, i, size, 1), s[i..i + size]), minReps, maxUnit, isAlnum, i)
  {
    assert |s[i..i + size]| == size;
    CountedRepeats(s, size, i, isAlnum);
  }

  lemma StepSound(s: string, size: nat, i: nat, best: Run, minReps: int, maxUnit: int, isAlnum: char -> bool)
    requires 2 <= size <= maxUnit && i + size <= |s| && Genuine(s, best, minReps, maxUnit, isAlnum)
    ensures Genuine(s, Step(s, size, i, best, minReps, isAlnum).1, minReps, maxUnit, isAlnum)
  {
    if Wanted(s[i..i + size], isAlnum) && Reps(s, i, size, 1) >= minReps {
      CountedIsReported(s, size, i, minReps, maxUnit, isAlnum);
    }
  }

  lemma {:induction false} ScanSound(s: string, size: nat, i: nat, best: Run, minReps: int, maxUnit: int,
                                     isAlnum: char -> bool)
    requires 2 <= size <= maxUnit && Genuine(s, best, minReps, maxUnit, isAlnum)
    ensures Genuine(s, Scan(s, size, i, best, minReps, isAlnum), minReps, maxUnit, isAlnum)
    decreases |s| - i
  {
    if i < |s| - size {
      StepSound(s, size, i, best, minReps, maxUnit, isAlnum);
      var (next, best') := Step(s, size, i, best, minReps, isAlnum);
      ScanSound(s, size, next, best', minReps, maxUnit, isAlnum);
    }
  }

  lemma {:induction false} ScanSizesSound(s: string, size: nat, maxUnit: int, best: Run, minReps: int,
                                          isAlnum: char -> bool)
    requires size >= 2 && Genuine(s, best, minReps, maxUnit, isAlnum)
    ensures Genuine(s, ScanSizes(s, size, maxUnit, best, minReps, isAlnum), minReps, maxUnit, isAlnum)
    decreases maxUnit - size
  {
    if size <= maxUnit {
      ScanSound(s, size, 0, best, minReps, maxUnit, isAlnum);
      ScanSizesSound(s, size + 1, maxUnit, Scan(s, size, 0, best, minReps, isAlnum), minReps, isAlnum);
    }
  }

  /** Copy k of a unit that starts at i is in the text. */
  predicate CopyStands(s: string, unit: string, i: nat, k: nat) {
    var at := i + k * |unit|;
    0 <= at && at + |unit| <= |s| && s[at..at + |unit|] == unit
  }

  /** The run stands at i: its copies back to back and no further one, its unit without a newline and with an
      alphanumeric, and long enough for the thresholds. */
  ghost predicate StandsAt(s: string, run: Run, minReps: int, maxUnit: int, isAlnum: char -> bool, i: nat) {
    && 2 <= |run.unit| <= maxUnit && run.reps >= minReps && run.reps >= 1
    && (forall k: nat :: k < run.reps ==> CopyStands(s, run.unit, i, k)) && !CopyStands(s, run.unit, i, run.reps)
    && '\n' !in run.unit && exists q :: 0 <= q < |run.unit| && isAlnum(run.unit[q])
  }

  /** Soundness: a nonzero result is a real contiguous repetition in the text that passes every filter and does not
      continue. */
  lemma FindSound(s: string, minReps: int, maxUnit: int, isAlnum: char -> bool)
    ensures var run := ScanSizes(s, 2, maxUnit, NONE, minReps, isAlnum);
            run == NONE || exists i: nat :: StandsAt(s, run, minReps, maxUnit, isAlnum, i)
  {
    ScanSizesSound(s, 2, maxUnit, NONE, minReps, isAlnum);
    var run := ScanSizes(s, 2, maxUnit, NONE, minReps, isAlnum);
    hide ScanSizes, StandsAt, Reported;
    if run != NONE {
      var i: nat :| Reported(s, run, minReps, maxUnit, isAlnum, i);
      ReportedStands(s, run, minReps, maxUnit, isAlnum, i);
    }
  }

  lemma ReportedStands(s: string, run: Run, minReps: int, maxUnit: int, isAlnum: char -> bool, i: nat)
    requires Reported(s, run, minReps, maxUnit, isAlnum, i)
    ensures StandsAt(s, run, minReps, maxUnit, isAlnum, i)
  {
    hide Wanted, Times, Periodic, CopyStands, CopyAt;
    WantedUnit(run.unit, isAlnum);
    RunStands(s, run.unit, i, run.reps);
  }

  lemma WantedUnit(unit: string, isAlnum: char -> bool)
    requires Wanted(unit, isAlnum)
    ensures '\n' !in unit && exists q :: 0 <= q < |unit| && isAlnum(unit[q])
  {
  }

  /** The place of copy k, by addition. */
  lemma CopyPlace(s: string, unit: string, i: nat, k: nat, at: nat)
    requires at == i + Times(k, |unit|)
    ensures CopyStands(s, unit, i, k) <==> at + |unit| <= |s| && s[at..at + |unit|] == unit
  {
    TimesIsProduct(k, |unit|);
    hide Times;
  }

  lemma RunStands(s: string, unit: string, i: nat, reps: nat)
    requires |unit| > 0 && i + |unit| <= |s| && s[i..i + |unit|] == unit && i + Times(reps, |unit|) <= |s|
    requires Periodic(s, i, i + Times(reps, |unit|), |unit|) && !CopyAt(s, i, i + Times(reps, |unit|), |unit|)
    ensures forall k: nat :: k < reps ==> CopyStands(s, unit, i, k)
    ensures !CopyStands(s, unit, i, reps)
  {
    hide Periodic, CopyStands, Times;
    forall k: nat | k < reps
      ensures CopyStands(s, unit, i, k)
    {
      InsideCopy(s, unit, i, reps, k);
    }
    CopyPlace(s, unit, i, reps, i + Times(reps, |unit|));
  }

  /** Copy k lies inside the run. */
  lemma CopyInside(reps: nat, k: nat, size: nat)
    requires k < reps
    ensures Times(k, size) + size <= Times(reps, size)
  {
    TimesMonotone(k + 1, reps, size);
  }

  /** Inside the run copy k is the unit. */
  lemma InsideCopy(s: string, unit: string, i: nat, reps: nat, k: nat)
    requires |unit| > 0 && i + |unit| <= |s| && s[i..i + |unit|] == unit && i + Times(reps, |unit|) <= |s|
    requires Periodic(s, i, i + Times(reps, |unit|), |unit|) && k < reps
    ensures CopyStands(s, unit, i, k)
  {
    hide CopyStands, Times, Periodic;
    var at, size := i + Times(k, |unit|), |unit|;
    CopyInside(reps, k, size);
    CopyPlace(s, unit, i, k, at);
    forall q | 0 <= q < size
      ensures s[at..at + size][q] == unit[q]
    {
      PeriodicMultiple(s, i, i + Times(reps, size), size, i + q, k);
      assert s[i..i + size][q] == s[i + q];
    }
    assert s[at..at + size] == unit;
  }
}
