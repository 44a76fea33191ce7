/** A lookup over the thread pool: the workers' rows interleave on the two shared staging buffers, and when run
    returns the buffers are the map of single fetches over the ids. */
module LookupPool {
  import opened NumberFormats
  import opened JobPool
  import opened RowStore

  /** How many jobs a lookup of n rows has. */
  function Jobs(n: nat): nat { (n + CHUNK - 1) / CHUNK }

  /** The pool, the ids of the current lookup, its buffers, and what the buffers held when it was called. */
  datatype System = System(pool: Pool, ids: seq<int>, w: seq<uint8>, c: seq<uint8>, w0: seq<uint8>, c0: seq<uint8>)

  /** A new lookup enters the pool, or the pool takes a step of its own. */
  datatype Action = Start(tag: nat, ids: seq<int>, w: seq<uint8>, c: seq<uint8>) | Inner(step: Step)

  /** The buffers hold a slot for every id. */
  predicate Room(ids: seq<int>, w: seq<uint8>, c: seq<uint8>) { |ids| * ROW <= |w| && |ids| * SCALE <= |c| }

  /** Only a lookup of several jobs uses the pool; a smaller one is the sequential loop. */
  predicate CanTake(sys: System, a: Action) {
    match a
    case Start(_, ids, w, c) => sys.pool.caller == Outside && Jobs(|ids|) > 1 && Room(ids, w, c)
    case Inner(step) => !step.Call? && Enabled(sys.pool, step)
  }

  /** The row a worker inside a job call fetches next. */
  function NextRow(w: Worker): nat
    requires w.Running?
  {
    w.idx * CHUNK + w.at
  }

  function Spliced(buf: seq<uint8>, at: nat, bytes: seq<uint8>): (r: seq<uint8>)
    ensures |r| == |buf|
  {
    if at + |bytes| <= |buf| then buf[..at] + bytes + buf[at + |bytes|..] else buf
  }

  /** One row fetched into its slot of the shared buffers; the rest of them stays. */
  ghost function FetchedInto(s: Store, sys: System, row: nat): System
    requires s.Ok()
  {
    if row < |sys.ids| then
      sys.(w := Spliced(sys.w, row * ROW, WeightRow(s, sys.ids[row])),
           c := Spliced(sys.c, row * SCALE, ScaleRow(s, sys.ids[row])))
    else sys
  }

  /** The system a lookup starts from, whatever the pool did before. */
  function Entered(p: Pool, tag: nat, ids: seq<int>, w: seq<uint8>, c: seq<uint8>): System
    requires p.caller == Outside
  {
    System(Apply(p, Call(Jobs(|ids|), Job(tag, |ids|))), ids, w, c, w, c)
  }

  ghost function Take(s: Store, sys: System, a: Action): System
    requires s.Ok() && CanTake(sys, a)
  {
    match a
    case Start(tag, ids, w, c) => Entered(sys.pool, tag, ids, w, c)
    case Inner(step) =>
      var moved := if step.Row? then FetchedInto(s, sys, NextRow(sys.pool.workers[step.w])) else sys;
      moved.(pool := Apply(sys.pool, step))
  }

  // ----- which rows are done

  /** The worker is past row i of its job. */
  predicate Past(w: Worker, i: nat) { w.Running? && w.idx == i / CHUNK && i % CHUNK < w.at }

  /** The job call of row i has returned, or a running worker is past the row. */
  ghost predicate RowDone(p: Pool, i: nat) {
    Logged(p.log, i / CHUNK) > 0 || exists k :: 0 <= k < |p.workers| && Past(p.workers[k], i)
  }

  /** Every row lies in exactly one job, at a place that job reaches. */
  lemma RowOfJob(i: nat, n: nat)
    requires i < n
    ensures i / CHUNK < Jobs(n) && i % CHUNK < Size(Job(0, n), i / CHUNK)
    ensures forall tag :: Size(Job(tag, n), i / CHUNK) == Size(Job(0, n), i / CHUNK)
  {
  }

  /** The rows that are done are in place; nothing behind the slots has changed. */
  ghost predicate InPlace(s: Store, sys: System)
    requires s.Ok()
  {
    && Room(sys.ids, sys.w, sys.c) && |sys.w| == |sys.w0| && |sys.c| == |sys.c0|
    && sys.w[|sys.ids| * ROW..] == sys.w0[|sys.ids| * ROW..]
    && sys.c[|sys.ids| * SCALE..] == sys.c0[|sys.ids| * SCALE..]
    && (forall i: nat :: i < |sys.ids| && RowDone(sys.pool, i) ==> Fetched(s, sys.ids[i], sys.w, sys.c, i))
  }

  /** The pool runs the current lookup's jobs, or has not been used. */
  predicate Current(sys: System) { sys.pool.job.rows == |sys.ids| && sys.pool.njobs == Jobs(|sys.ids|) }

  ghost predicate SysInv(s: Store, sys: System)
    requires s.Ok()
  {
    Inv(sys.pool) && Current(sys) && InPlace(s, sys)
  }

  // ----- what every step keeps

  /** A worker that changes can only become past a row by fetching it. */
  lemma WorkerDone(p: Pool, k: nat, now: Worker, i: nat)
    requires k < |p.workers| && (Past(now, i) ==> Past(p.workers[k], i))
    ensures RowDone(p.(workers := p.workers[k := now]), i) ==> RowDone(p, i)
  {
    hide Past, Logged;
    var ws := p.workers[k := now];
    if v :| 0 <= v < |ws| && Past(ws[v], i) {
      assert Past(p.workers[v], i);
    }
  }

  /** Waking workers, counting, claiming and entering put no worker past a row. */
  lemma WokenDone(p: Pool, i: nat)
    ensures RowDone(p.(workers := WakeAll(p.workers), caller := Testing), i) ==> RowDone(p, i)
  {
    hide Logged;
    var ws := WakeAll(p.workers);
    if v :| 0 <= v < |ws| && Past(ws[v], i) {
      assert Past(p.workers[v], i);
    }
  }

  lemma FieldsDone(p: Pool, q: Pool, i: nat)
    requires q.workers == p.workers && q.log == p.log
    ensures RowDone(q, i) ==> RowDone(p, i)
  {
    hide Past, Logged;
  }

  /** A call returns only after all its rows, so returning finishes no row that was not done. */
  lemma LeaveDone(p: Pool, w: nat, i: nat)
    requires Inv(p) && Enabled(p, Leave(w)) && i < p.job.rows
    ensures RowDone(Apply(p, Leave(w)), i) ==> RowDone(p, i)
  {
    var me := p.workers[w];
    LogGrows(p.log, (me.job, me.idx), i / CHUNK);
    assert WithinJob(p, me);
    RowOfJob(i, p.job.rows);
    assert Job(p.job.tag, p.job.rows) == p.job;
    assert me.idx == i / CHUNK ==> Past(me, i);
    WorkerDone(p, w, Finishing, i);
  }

  /** The only step that finishes a row is the fetch of that row. */
  lemma NewlyDone(p: Pool, step: Step, i: nat)
    requires Inv(p) && Enabled(p, step) && !step.Call? && i < p.job.rows
    ensures RowDone(Apply(p, step), i) ==> RowDone(p, i) || (step.Row? && i == NextRow(p.workers[step.w]))
  {
    hide Inv, RowDone, Logged, Size, WakeAll;
    match step
    case Notify => WokenDone(p, i);
    case Claim(w) =>
      var q := p.(workers := p.workers[w := if p.next < p.njobs then Claimed(p.next) else Asleep]);
      WorkerDone(p, w, if p.next < p.njobs then Claimed(p.next) else Asleep, i);
      FieldsDone(q, Apply(p, step), i);
    case Enter(w) => WorkerDone(p, w, Running(p.job, p.workers[w].idx, 0), i);
    case Row(w) =>
      if i != NextRow(p.workers[w]) { WorkerDone(p, w, p.workers[w].(at := p.workers[w].at + 1), i); }
    case Leave(w) => LeaveDone(p, w, i);
    case Finish(w) =>
      WorkerDone(p, w, Checking, i);
      FieldsDone(p.(workers := p.workers[w := Checking]), Apply(p, step), i);
    case Spurious(w) => WorkerDone(p, w, Checking, i);
    case Test => FieldsDone(p, Apply(p, step), i);
    case CallerSpurious => FieldsDone(p, Apply(p, step), i);
    case Call(_, _) =>
  }

  /** A new run starts with no row done. */
  lemma NothingDone(p: Pool, n: nat, f: Job, i: nat)
    requires Inv(p) && Enabled(p, Call(n, f))
    ensures !RowDone(Apply(p, Call(n, f)), i)
  {
    NoneBusy(p.workers, 0);
  }

  lemma SplicedSlot(buf: seq<uint8>, at: nat, bytes: seq<uint8>)
    requires at + |bytes| <= |buf|
    ensures Spliced(buf, at, bytes)[at..at + |bytes|] == bytes
    ensures forall k :: 0 <= k < |buf| && !(at <= k < at + |bytes|) ==> Spliced(buf, at, bytes)[k] == buf[k]
  {
  }

  /** A fetched row is in its slot, and every other slot is as it was. */
  lemma FetchKeeps(s: Store, sys: System, row: nat, i: nat)
    requires s.Ok() && Room(sys.ids, sys.w, sys.c) && row < |sys.ids| && i < |sys.ids|
    ensures var next := FetchedInto(s, sys, row);
            if i == row then Fetched(s, sys.ids[i], next.w, next.c, i)
            else Fetched(s, sys.ids[i], sys.w, sys.c, i) ==> Fetched(s, sys.ids[i], next.w, next.c, i)
  {
    hide WeightRow, ScaleRow;
    SplicedSlot(sys.w, row * ROW, WeightRow(s, sys.ids[row]));
    SplicedSlot(sys.c, row * SCALE, ScaleRow(s, sys.ids[row]));
    var next := FetchedInto(s, sys, row);
    hide Spliced, FetchedInto;
    if i != row && Fetched(s, sys.ids[i], sys.w, sys.c, i) {
      FetchedKept(s, sys.ids[i], sys.w, sys.c, next.w, next.c, i, row, row + 1);
    }
  }

  /** Fetching changes slots only. */
  lemma FetchInside(s: Store, sys: System, row: nat)
    requires s.Ok() && Room(sys.ids, sys.w, sys.c) && row < |sys.ids|
    ensures var next := FetchedInto(s, sys, row);
            && |next.w| == |sys.w| && |next.c| == |sys.c|
            && next.w[|sys.ids| * ROW..] == sys.w[|sys.ids| * ROW..]
            && next.c[|sys.ids| * SCALE..] == sys.c[|sys.ids| * SCALE..]
  {
    hide WeightRow, ScaleRow;
  }

  /** The next row of a worker in a call is a row of the lookup. */
  lemma NextInRange(p: Pool, w: nat)
    requires Inv(p) && Enabled(p, Row(w))
    ensures NextRow(p.workers[w]) < p.job.rows
  {
    assert WithinJob(p, p.workers[w]);
  }

  lemma NextFits(s: Store, sys: System, w: nat)
    requires s.Ok() && SysInv(s, sys) && CanTake(sys, Inner(Row(w)))
    ensures var row := NextRow(sys.pool.workers[w]);
            row < |sys.ids| && row * ROW + ROW <= |sys.w| && row * SCALE + SCALE <= |sys.c|
  {
    NextInRange(sys.pool, w);
  }

  lemma RowInPlace(s: Store, sys: System, w: nat)
    requires s.Ok() && SysInv(s, sys) && CanTake(sys, Inner(Row(w)))
    ensures InPlace(s, Take(s, sys, Inner(Row(w))))
  {
    var row := NextRow(sys.pool.workers[w]);
    NextInRange(sys.pool, w);
    FetchInside(s, sys, row);
    var next := Take(s, sys, Inner(Row(w)));
    hide FetchedInto, RowDone, Fetched, Inv, Apply;
    forall i: nat | i < |sys.ids| && RowDone(next.pool, i)
      ensures Fetched(s, sys.ids[i], next.w, next.c, i)
    {
      NewlyDone(sys.pool, Row(w), i);
      FetchKeeps(s, sys, row, i);
    }
  }

  lemma OtherInPlace(s: Store, sys: System, step: Step)
    requires s.Ok() && SysInv(s, sys) && CanTake(sys, Inner(step)) && !step.Row?
    ensures InPlace(s, Take(s, sys, Inner(step)))
  {
    hide RowDone, Fetched, Inv, Apply;
    var next := Take(s, sys, Inner(step));
    forall i: nat | i < |sys.ids| && RowDone(next.pool, i)
      ensures Fetched(s, sys.ids[i], next.w, next.c, i)
    {
      NewlyDone(sys.pool, step, i);
    }
  }

  lemma EnteredInv(s: Store, p: Pool, tag: nat, ids: seq<int>, w: seq<uint8>, c: seq<uint8>)
    requires s.Ok() && Inv(p) && p.caller == Outside && Room(ids, w, c)
    ensures SysInv(s, Entered(p, tag, ids, w, c))
  {
    StepInv(p, Call(Jobs(|ids|), Job(tag, |ids|)));
    var next := Entered(p, tag, ids, w, c);
    assert Current(next);
    hide RowDone, Fetched, Inv, Apply;
    forall i: nat | i < |ids|
      ensures !RowDone(next.pool, i)
    {
      NothingDone(p, Jobs(|ids|), Job(tag, |ids|), i);
    }
  }

  lemma CurrentKept(p: Pool, step: Step)
    requires Enabled(p, step) && !step.Call?
    ensures Apply(p, step).job == p.job && Apply(p, step).njobs == p.njobs
  {
  }

  /** Every action keeps the rows that are done in place. */
  lemma TakeInv(s: Store, sys: System, a: Action)
    requires s.Ok() && SysInv(s, sys) && CanTake(sys, a)
    ensures SysInv(s, Take(s, sys, a))
  {
    hide InPlace, Inv, FetchedInto;
    match a
    case Start(tag, ids, w, c) => EnteredInv(s, sys.pool, tag, ids, w, c);
    case Inner(step) =>
      StepInv(sys.pool, step);
      CurrentKept(sys.pool, step);
      SameIds(s, sys, step);
      if step.Row? { RowInPlace(s, sys, step.w); } else { OtherInPlace(s, sys, step); }
  }

  lemma SameIds(s: Store, sys: System, step: Step)
    requires s.Ok() && CanTake(sys, Inner(step))
    ensures Take(s, sys, Inner(step)).ids == sys.ids
  {
    hide Apply;
  }

  // ----- whole interleavings

  ghost predicate SysInit(sys: System) {
    JobPool.Init(sys.pool) && sys.pool.job.rows == 0 && sys.ids == [] && sys.w == sys.w0 && sys.c == sys.c0
  }

  ghost predicate SysTrace(s: Store, states: seq<System>, actions: seq<Action>)
    requires s.Ok()
  {
    && |states| == |actions| + 1 && SysInit(states[0])
    && forall i, j :: 0 <= i < |actions| && j == i + 1 ==> SysTakes(s, states[i], actions[i], states[j])
  }

  ghost predicate SysTakes(s: Store, sys: System, a: Action, next: System)
    requires s.Ok()
  {
    CanTake(sys, a) && next == Take(s, sys, a)
  }

  lemma {:induction false} SysTraceInv(s: Store, states: seq<System>, actions: seq<Action>, i: nat)
    requires s.Ok() && SysTrace(s, states, actions) && i < |states|
    ensures SysInv(s, states[i])
    decreases i
  {
    hide Take, CanTake, Inv, InPlace, JobPool.Init;
    if i == 0 {
      InitInPlace(s, states[0]);
    } else {
      SysTraceInv(s, states, actions, i - 1);
      assert SysTakes(s, states[i - 1], actions[i - 1], states[i]);
      TakeInv(s, states[i - 1], actions[i - 1]);
    }
  }

  lemma InitInPlace(s: Store, sys: System)
    requires s.Ok() && SysInit(sys)
    ensures SysInv(s, sys)
  {
    InitInv(sys.pool);
  }

  /** When the pool is idle every row of the current lookup is done. */
  lemma IdleDone(p: Pool, i: nat)
    requires Inv(p) && p.caller == Outside && p.njobs == Jobs(p.job.rows) && i < p.job.rows
    ensures RowDone(p, i)
  {
    RowOfJob(i, p.job.rows);
    assert OnceEach(p, i / CHUNK);
    NoneBusy(p.workers, i / CHUNK);
  }

  /** For every interleaving of the pool's threads, row by row: whenever run has returned, the buffers are the
      sequential map of single fetches over the ids, and the bytes behind the slots are those of the call. */
  lemma LookupInterleaved(s: Store, states: seq<System>, actions: seq<Action>, i: nat)
    requires s.Ok() && SysTrace(s, states, actions) && i < |states| && states[i].pool.caller == Outside
    ensures Slots(s, states[i].ids, states[i].w, states[i].c, 0, |states[i].ids|)
    ensures Room(states[i].ids, states[i].w0, states[i].c0) && |states[i].w| == |states[i].w0|
    ensures |states[i].c| == |states[i].c0|
    ensures states[i].w[|states[i].ids| * ROW..] == states[i].w0[|states[i].ids| * ROW..]
    ensures states[i].c[|states[i].ids| * SCALE..] == states[i].c0[|states[i].ids| * SCALE..]
  {
    SysTraceInv(s, states, actions, i);
    AllInPlace(s, states[i]);
  }

  lemma AllInPlace(s: Store, sys: System)
    requires s.Ok() && SysInv(s, sys) && sys.pool.caller == Outside
    ensures Slots(s, sys.ids, sys.w, sys.c, 0, |sys.ids|)
  {
    hide Fetched, Inv, RowDone;
    forall i: nat | i < |sys.ids|
      ensures Fetched(s, sys.ids[i], sys.w, sys.c, i)
    {
      IdleDone(sys.pool, i);
    }
  }

  // ----- the lookup itself

  /** Steps the pool can take one after the other, ending when run returns. */
  predicate Schedule(p: Pool, steps: seq<Step>)
    decreases |steps|
  {
    if steps == [] then p.caller == Outside
    else !steps[0].Call? && Enabled(p, steps[0]) && Schedule(Apply(p, steps[0]), steps[1..])
  }

  /** Overwriting exactly one slot is splicing the row in. */
  lemma OneSlotWritten(before: seq<uint8>, after: seq<uint8>, at: nat, bytes: seq<uint8>)
    requires |before| == |after| && at + |bytes| <= |after| && after[at..at + |bytes|] == bytes
    requires forall k :: 0 <= k < |after| && !(at <= k < at + |bytes|) ==> after[k] == before[k]
    ensures after == Spliced(before, at, bytes)
  {
    SplicedSlot(before, at, bytes);
    var spliced := Spliced(before, at, bytes);
    forall k | 0 <= k < |after|
      ensures after[k] == spliced[k]
    {
      if at <= k < at + |bytes| { assert after[k] == bytes[k - at] && spliced[at..at + |bytes|][k - at] == spliced[k]; }
    }
  }

  /** The step of the system that a row fetched in place takes. */
  lemma FetchIsTake(s: Store, sys: System, w: nat, weights: seq<uint8>, scales: seq<uint8>)
    requires s.Ok() && SysInv(s, sys) && CanTake(sys, Inner(Row(w)))
    requires var row := NextRow(sys.pool.workers[w]);
             && row < |sys.ids| && Fetched(s, sys.ids[row], weights, scales, row)
             && |weights| == |sys.w| && |scales| == |sys.c|
             && (forall k :: 0 <= k < |weights| && !(row * ROW <= k < row * ROW + ROW) ==> weights[k] == sys.w[k])
             && forall k :: 0 <= k < |scales| && !(row * SCALE <= k < row * SCALE + SCALE) ==> scales[k] == sys.c[k]
    ensures Take(s, sys, Inner(Row(w))) == System(Apply(sys.pool, Row(w)), sys.ids, weights, scales, sys.w0, sys.c0)
  {
    hide Inv, WeightRow, ScaleRow, Spliced, InPlace, Apply;
    var row := NextRow(sys.pool.workers[w]);
    OneSlotWritten(sys.w, weights, row * ROW, WeightRow(s, sys.ids[row]));
    OneSlotWritten(sys.c, scales, row * SCALE, ScaleRow(s, sys.ids[row]));
  }

  /** How many row fetches a schedule has. */
  function Fetches(steps: seq<Step>): nat {
    if |steps| == 0 then 0 else (if steps[0].Row? then 1 else 0) + Fetches(steps[1..])
  }

  /** The rows of a lookup in the order in which the pool's workers get to them. */
  method Pooled(s: Store, ids: seq<int>, weights: array<uint8>, scales: array<uint8>, start: Pool,
                schedule: seq<Step>, script: seq<Attempt>)
    returns (r: Outcome)
    requires s.Ok() && weights != scales
    requires SysInv(s, System(start, ids, weights[..], scales[..], weights[..], scales[..]))
    requires Schedule(start, schedule)
    modifies weights, scales
    ensures OnlyWrote(weights, 0, |ids| * ROW) && OnlyWrote(scales, 0, |ids| * SCALE)
    ensures r == Done ==> Slots(s, ids, weights[..], scales[..], 0, |ids|)
    ensures r == Pending ==> Reads(script) < Fetches(schedule) * (ROW + SCALE)
    ensures Healthy(script) ==> r != Aborted
  {
    hide Fetched, Inv, Apply, InPlace, Reads;
    var p, left, rest := start, schedule, script;
    ghost var sys := System(start, ids, weights[..], scales[..], weights[..], scales[..]);
    while left != []
      invariant Schedule(p, left) && SysInv(s, sys) && (Healthy(script) ==> Healthy(rest))
      invariant sys == System(p, ids, weights[..], scales[..], old(weights[..]), old(scales[..]))
      invariant OnlyWrote(weights, 0, |ids| * ROW) && OnlyWrote(scales, 0, |ids| * SCALE)
      invariant Reads(script) + Fetches(left) * (ROW + SCALE) <= Reads(rest) + Fetches(schedule) * (ROW + SCALE)
      decreases |left|
    {
      var step := left[0];
      if step.Row? {
        var row := NextRow(p.workers[step.w]);
        NextFits(s, sys, step.w);
        r, rest := FetchOne(s, ids[row], weights, scales, row, rest);
        if r != Done { return; }
        FetchIsTake(s, sys, step.w, weights[..], scales[..]);
      }
      TakeInv(s, sys, Inner(step));
      sys := Take(s, sys, Inner(step));
      p, left := Apply(p, step), left[1..];
    }
    AllInPlace(s, sys);
    r := Done;
  }

  /** row_store_lookup: nothing for no ids, a plain loop for one job, the pool for more. Whatever the pool's schedule
      and the reads' lengths, a finished lookup is the sequential map of single fetches, and nothing behind it
      changes; it finishes once the reads have brought bytes often enough. */
  method Lookup(s: Store, ids: seq<int>, weights: array<uint8>, scales: array<uint8>, pool: Pool, tag: nat,
                schedule: seq<Step>, script: seq<Attempt>)
    returns (r: Outcome)
    requires s.Ok() && weights != scales && |ids| * ROW <= weights.Length && |ids| * SCALE <= scales.Length
    requires Inv(pool) && pool.caller == Outside
    requires Jobs(|ids|) > 1 ==> Schedule(Entered(pool, tag, ids, [], []).pool, schedule)
    modifies weights, scales
    ensures OnlyWrote(weights, 0, |ids| * ROW) && OnlyWrote(scales, 0, |ids| * SCALE)
    ensures r == Done ==> Slots(s, ids, weights[..], scales[..], 0, |ids|)
    ensures r == Pending ==>
              Reads(script) < (if Jobs(|ids|) > 1 then Fetches(schedule) else |ids|) * (ROW + SCALE)
    ensures Healthy(script) ==> r != Aborted
  {
    hide Fetched, Inv, Schedule, Apply, InPlace, Enabled, Reads, Fetches;
    if |ids| == 0 { return Done; }
    var rest := script;
    if Jobs(|ids|) == 1 {
      r, rest := FetchRange(s, ids, weights, scales, 0, |ids|, script);
      return;
    }
    EnteredInv(s, pool, tag, ids, weights[..], scales[..]);
    r := Pooled(s, ids, weights, scales, Entered(pool, tag, ids, [], []).pool, schedule, script);
  }
}
