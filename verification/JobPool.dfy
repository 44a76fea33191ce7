/** The thread pool as a step system: shared counters under a mutex, two condition variables, and one caller.
    A running job advances row by row, so the rows of different workers interleave. */
module JobPool {
  import opened Basics

  const CHUNK := 64   // rows per job

  /** A job function of some run, over so many rows. */
  datatype Job = Job(tag: nat, rows: nat)

  /** The rows of the job with an index. */
  function Size(job: Job, idx: nat): (n: nat)
    ensures n <= CHUNK
  {
    Max(0, Min(CHUNK, job.rows - idx * CHUNK))
  }

  /** A worker is about to test its wait condition, asleep on it, about to call the stored function with a claimed
      index, inside the call with some rows behind it, or about to count the job as finished. */
  datatype Worker = Checking | Asleep | Claimed(idx: nat) | Running(job: Job, idx: nat, at: nat) | Finishing

  /** The caller of run: not in it, about to notify the workers, about to test its own condition, or asleep on it. */
  datatype Caller = Outside | Notifying | Testing | Waiting

  /** job is the function stored by the current run; log holds, in order, the function and index of every job call of
      the current run that has returned. */
  datatype Pool = Pool(job: Job, njobs: nat, next: nat, finished: nat, workers: seq<Worker>, caller: Caller,
                       log: seq<(Job, nat)>)

  datatype Step =
    | Call(n: nat, f: Job) | Notify | Test
    | Claim(w: nat) | Enter(w: nat) | Row(w: nat) | Leave(w: nat) | Finish(w: nat)
    | Spurious(w: nat) | CallerSpurious

  predicate Enabled(p: Pool, s: Step) {
    match s
    case Call(_, _) => p.caller == Outside
    case Notify => p.caller == Notifying
    case Test => p.caller == Testing
    case Claim(w) => w < |p.workers| && p.workers[w] == Checking
    case Enter(w) => w < |p.workers| && p.workers[w].Claimed?
    case Row(w) =>
      w < |p.workers| && p.workers[w].Running? && p.workers[w].at < Size(p.workers[w].job, p.workers[w].idx)
    case Leave(w) =>
      w < |p.workers| && p.workers[w].Running? && p.workers[w].at >= Size(p.workers[w].job, p.workers[w].idx)
    case Finish(w) => w < |p.workers| && p.workers[w] == Finishing
    case Spurious(w) => w < |p.workers| && p.workers[w] == Asleep
    case CallerSpurious => p.caller == Waiting
  }

  function Woken(w: Worker): Worker { if w == Asleep then Checking else w }

  function WakeAll(ws: seq<Worker>): (r: seq<Worker>)
    ensures |r| == |ws|
  {
    seq(|ws|, i requires 0 <= i < |ws| => Woken(ws[i]))
  }

  function Apply(p: Pool, s: Step): Pool
    requires Enabled(p, s)
  {
    match s
    case Call(n, f) => p.(job := f, njobs := n, next := 0, finished := 0, caller := Notifying, log := [])
    case Notify => p.(workers := WakeAll(p.workers), caller := Testing)
    case Test => p.(caller := if p.finished == p.njobs then Outside else Waiting)
    case Claim(w) =>
      if p.next < p.njobs then p.(workers := p.workers[w := Claimed(p.next)], next := p.next + 1)
      else p.(workers := p.workers[w := Asleep])
    case Enter(w) => p.(workers := p.workers[w := Running(p.job, p.workers[w].idx, 0)])
    case Row(w) => p.(workers := p.workers[w := p.workers[w].(at := p.workers[w].at + 1)])
    case Leave(w) => p.(workers := p.workers[w := Finishing], log := p.log + [(p.workers[w].job, p.workers[w].idx)])
    case Finish(w) =>
      var p1 := p.(workers := p.workers[w := Checking], finished := p.finished + 1);
      if p1.finished == p1.njobs && p1.caller == Waiting then p1.(caller := Testing) else p1
    case Spurious(w) => p.(workers := p.workers[w := Checking])
    case CallerSpurious => p.(caller := Testing)
  }

  // ----- bookkeeping

  predicate Runs(w: Worker, x: nat) { (w.Claimed? || w.Running?) && w.idx == x }

  predicate Holds(w: Worker) { w.Claimed? || w.Running? || w.Finishing? }

  /** How many workers hold the job with index x. */
  function Held(ws: seq<Worker>, x: nat): nat {
    if |ws| == 0 then 0 else Held(ws[..|ws| - 1], x) + One(Runs(ws[|ws| - 1], x))
  }

  /** How many workers hold a claimed job that is not counted as finished. */
  function Busy(ws: seq<Worker>): nat {
    if |ws| == 0 then 0 else Busy(ws[..|ws| - 1]) + One(Holds(ws[|ws| - 1]))
  }

  /** How often the log has index x. */
  function Logged(log: seq<(Job, nat)>, x: nat): nat {
    if |log| == 0 then 0 else Logged(log[..|log| - 1], x) + One(log[|log| - 1].1 == x)
  }

  lemma {:induction false} HeldChange(ws: seq<Worker>, i: nat, w: Worker, x: nat)
    requires i < |ws|
    ensures Held(ws[i := w], x) + One(Runs(ws[i], x)) == Held(ws, x) + One(Runs(w, x))
  {
    hide Runs;
    var n := |ws| - 1;
    if i < n {
      HeldChange(ws[..n], i, w, x);
      assert ws[i := w][..n] == ws[..n][i := w];
    } else {
      assert ws[i := w][..n] == ws[..n];
    }
  }

  lemma {:induction false} BusyChange(ws: seq<Worker>, i: nat, w: Worker)
    requires i < |ws|
    ensures Busy(ws[i := w]) + One(Holds(ws[i])) == Busy(ws) + One(Holds(w))
  {
    hide Holds;
    var n := |ws| - 1;
    if i < n {
      BusyChange(ws[..n], i, w);
      assert ws[i := w][..n] == ws[..n][i := w];
    } else {
      assert ws[i := w][..n] == ws[..n];
    }
  }

  lemma {:induction false} WakingKeeps(ws: seq<Worker>, x: nat)
    ensures Held(WakeAll(ws), x) == Held(ws, x) && Busy(WakeAll(ws)) == Busy(ws)
  {
    if |ws| > 0 {
      WakingKeeps(ws[..|ws| - 1], x);
      assert WakeAll(ws)[..|ws| - 1] == WakeAll(ws[..|ws| - 1]);
    }
  }

  lemma {:induction false} NoneBusy(ws: seq<Worker>, x: nat)
    ensures Busy(ws) == 0 ==> Held(ws, x) == 0
    ensures Busy(ws) == 0 <==> forall i :: 0 <= i < |ws| ==> !Holds(ws[i])
  {
    if |ws| > 0 { NoneBusy(ws[..|ws| - 1], x); }
  }

  lemma LogGrows(log: seq<(Job, nat)>, entry: (Job, nat), x: nat)
    ensures Logged(log + [entry], x) == Logged(log, x) + One(entry.1 == x)
  {
    assert (log + [entry])[..|log|] == log;
  }

  // ----- what every step keeps

  /** Index x is claimed once if it is below next: its call has returned, or one worker holds it. */
  predicate OnceEach(p: Pool, x: nat) {
    Logged(p.log, x) + Held(p.workers, x) == One(x < p.next)
  }

  /** Nobody sleeps through available work, and the caller sleeps only while jobs are outstanding. */
  ghost predicate Awake(p: Pool) {
    && (p.caller != Notifying && p.next < p.njobs ==> forall i :: 0 <= i < |p.workers| ==> p.workers[i] != Asleep)
    && (p.caller == Outside ==> p.finished == p.njobs)
    && (p.caller == Waiting ==> p.finished < p.njobs)
  }

  /** The counters add up. */
  predicate Counted(p: Pool) {
    |p.workers| > 0 && p.next <= p.njobs && p.next == p.finished + Busy(p.workers)
  }

  predicate WithinJob(p: Pool, w: Worker) { w.Running? ==> w.job == p.job && w.at <= Size(w.job, w.idx) }

  /** Every job call, over or not, uses the current run's function. */
  ghost predicate OwnJob(p: Pool) {
    && (forall k :: 0 <= k < |p.log| ==> p.log[k].0 == p.job)
    && forall i :: 0 <= i < |p.workers| ==> WithinJob(p, p.workers[i])
  }

  ghost predicate Inv(p: Pool) { Counted(p) && OwnJob(p) && Awake(p) && forall x: nat :: OnceEach(p, x) }

  ghost predicate Init(p: Pool) {
    && |p.workers| > 0 && (forall i :: 0 <= i < |p.workers| ==> p.workers[i] == Checking)
    && p.njobs == p.next == p.finished == 0 && p.caller == Outside && p.log == []
  }

  lemma InitInv(p: Pool)
    requires Init(p)
    ensures Inv(p)
  {
    forall x: nat
      ensures OnceEach(p, x)
    {
      NoneBusy(p.workers, x);
    }
    NoneBusy(p.workers, 0);
  }

  lemma OwnJobKept(p: Pool, s: Step)
    requires Counted(p) && OwnJob(p) && Awake(p) && Enabled(p, s)
    ensures OwnJob(Apply(p, s))
  {
    hide Size, Held, Logged;
    if s.Call? { NoneBusy(p.workers, 0); }
  }

  lemma CountedKept(p: Pool, s: Step)
    requires Counted(p) && Awake(p) && Enabled(p, s)
    ensures Counted(Apply(p, s))
  {
    hide Size, Held, Logged;
    match s
    case Notify => WakingKeeps(p.workers, 0);
    case Claim(w) => BusyChange(p.workers, w, if p.next < p.njobs then Claimed(p.next) else Asleep);
    case Enter(w) => BusyChange(p.workers, w, Running(p.job, p.workers[w].idx, 0));
    case Row(w) => BusyChange(p.workers, w, p.workers[w].(at := p.workers[w].at + 1));
    case Leave(w) => BusyChange(p.workers, w, Finishing);
    case Finish(w) => BusyChange(p.workers, w, Checking);
    case Spurious(w) => BusyChange(p.workers, w, Checking);
    case Call(_, _) => NoneBusy(p.workers, 0);
    case _ =>
  }

  lemma AwakeKept(p: Pool, s: Step)
    requires Counted(p) && Awake(p) && Enabled(p, s)
    ensures Awake(Apply(p, s))
  {
    hide Held, Logged;
    if s.Finish? { BusyHolder(p.workers, s.w); }
  }

  lemma {:induction false} BusyHolder(ws: seq<Worker>, i: nat)
    requires i < |ws| && Holds(ws[i])
    ensures Busy(ws) > 0
  {
    NoneBusy(ws, 0);
  }

  lemma CallerIdle(p: Pool, s: Step, x: nat)
    requires Counted(p) && Awake(p) && Enabled(p, s) && s.Call?
    ensures Held(p.workers, x) == 0
  {
    NoneBusy(p.workers, x);
  }

  lemma ClaimOnce(p: Pool, w: nat, x: nat)
    requires Enabled(p, Claim(w)) && OnceEach(p, x)
    ensures OnceEach(Apply(p, Claim(w)), x)
  {
    HeldChange(p.workers, w, if p.next < p.njobs then Claimed(p.next) else Asleep, x);
  }

  lemma LeaveOnce(p: Pool, w: nat, x: nat)
    requires Enabled(p, Leave(w)) && OnceEach(p, x)
    ensures OnceEach(Apply(p, Leave(w)), x)
  {
    HeldChange(p.workers, w, Finishing, x);
    LogGrows(p.log, (p.workers[w].job, p.workers[w].idx), x);
  }

  /** A worker that holds the same index before and after. */
  lemma SameOnce(p: Pool, w: nat, now: Worker, x: nat)
    requires w < |p.workers| && Runs(now, x) == Runs(p.workers[w], x) && OnceEach(p, x)
    ensures OnceEach(p.(workers := p.workers[w := now]), x)
  {
    HeldChange(p.workers, w, now, x);
  }

  lemma OnceKept(p: Pool, s: Step, x: nat)
    requires Counted(p) && Awake(p) && Enabled(p, s) && OnceEach(p, x)
    ensures OnceEach(Apply(p, s), x)
  {
    hide Size, Busy, Held, Logged, WakeAll;
    match s
    case Call(_, _) =>
      CallerIdle(p, s, x);
      NothingLogged(x);
    case Notify => WakingKeeps(p.workers, x);
    case Claim(w) => ClaimOnce(p, w, x);
    case Enter(w) => SameOnce(p, w, Running(p.job, p.workers[w].idx, 0), x);
    case Row(w) => SameOnce(p, w, p.workers[w].(at := p.workers[w].at + 1), x);
    case Leave(w) => LeaveOnce(p, w, x);
    case Finish(w) => SameOnce(p, w, Checking, x);
    case Spurious(w) => SameOnce(p, w, Checking, x);
    case _ =>
  }

  lemma NothingLogged(x: nat)
    ensures Logged([], x) == 0
  {
  }

  lemma StepInv(p: Pool, s: Step)
    requires Inv(p) && Enabled(p, s)
    ensures Inv(Apply(p, s))
  {
    hide Counted, OwnJob, Awake, OnceEach, Apply;
    CountedKept(p, s);
    OwnJobKept(p, s);
    AwakeKept(p, s);
    forall x: nat
      ensures OnceEach(Apply(p, s), x)
    {
      OnceKept(p, s, x);
    }
  }

  // ----- whole interleavings

  ghost predicate Trace(states: seq<Pool>, steps: seq<Step>) {
    && |states| == |steps| + 1 && Init(states[0])
    && forall i, j :: 0 <= i < |steps| && j == i + 1 ==> Takes(states[i], steps[i], states[j])
  }

  predicate Takes(p: Pool, s: Step, q: Pool) { Enabled(p, s) && q == Apply(p, s) }

  lemma {:induction false} TraceInv(states: seq<Pool>, steps: seq<Step>, i: nat)
    requires Trace(states, steps) && i < |states|
    ensures Inv(states[i])
    decreases i
  {
    hide Inv, Init, Apply, Enabled;
    if i == 0 {
      InitInv(states[0]);
    } else {
      TraceInv(states, steps, i - 1);
      assert Takes(states[i - 1], steps[i - 1], states[i]);
      StepInv(states[i - 1], steps[i - 1]);
    }
  }

  /** For every interleaving: run returns only when every job has finished, and then the calls that returned are those
      of the indices below njobs, each exactly once, always with this run's function. */
  lemma ReturnMeansAllOnce(states: seq<Pool>, steps: seq<Step>, i: nat)
    requires Trace(states, steps) && i < |states| && states[i].caller == Outside
    ensures var p := states[i];
            && p.finished == p.njobs == p.next
            && (forall x: nat :: Logged(p.log, x) == One(x < p.njobs))
            && forall k :: 0 <= k < |p.log| ==> p.log[k].0 == p.job
  {
    TraceInv(states, steps, i);
    var p := states[i];
    forall x: nat
      ensures Logged(p.log, x) == One(x < p.njobs)
    {
      assert OnceEach(p, x);
      NoneBusy(p.workers, x);
    }
  }

  /** At no time has a job call of an index returned twice. */
  lemma NeverTwice(states: seq<Pool>, steps: seq<Step>, i: nat, x: nat)
    requires Trace(states, steps) && i < |states|
    ensures Logged(states[i].log, x) <= One(x < states[i].njobs)
  {
    TraceInv(states, steps, i);
    assert OnceEach(states[i], x);
  }

  // ----- progress

  /** A step that is not a spurious wake-up. */
  predicate Proper(s: Step) { !s.Spurious? && !s.CallerSpurious? && !s.Call? }

  function Weight(w: Worker): nat {
    match w
    case Checking => 1
    case Asleep => 0
    case Claimed(_) => CHUNK + 5
    case Running(_, _, at) => 4 + Max(0, CHUNK - at)
    case Finishing => 3
  }

  function Weights(ws: seq<Worker>): nat {
    if |ws| == 0 then 0 else Weights(ws[..|ws| - 1]) + Weight(ws[|ws| - 1])
  }

  lemma {:induction false} WeightsChange(ws: seq<Worker>, i: nat, w: Worker)
    requires i < |ws|
    ensures Weights(ws[i := w]) + Weight(ws[i]) == Weights(ws) + Weight(w)
  {
    hide Weight;
    var n := |ws| - 1;
    if i < n {
      WeightsChange(ws[..n], i, w);
      assert ws[i := w][..n] == ws[..n][i := w];
    } else {
      assert ws[i := w][..n] == ws[..n];
    }
  }

  lemma {:induction false} WakingWeighs(ws: seq<Worker>)
    ensures Weights(WakeAll(ws)) <= Weights(ws) + |ws|
  {
    if |ws| > 0 {
      WakingWeighs(ws[..|ws| - 1]);
      assert WakeAll(ws)[..|ws| - 1] == WakeAll(ws[..|ws| - 1]);
    }
  }

  /** Jobs to claim, what the workers are at, and what the caller still does. */
  function Measure(p: Pool): int {
    (CHUNK + 6) * (p.njobs - p.next) + Weights(p.workers)
    + match p.caller { case Outside => 0 case Notifying => |p.workers| + 2 case Testing => 1 case Waiting => 0 }
  }

  /** While run waits some proper step can be taken: no wake-up is lost and no job is stranded. */
  lemma NoDeadlock(p: Pool)
    requires Inv(p) && p.caller != Outside
    ensures exists s :: Proper(s) && Enabled(p, s)
  {
    match p.caller
    case Notifying => assert Proper(Notify) && Enabled(p, Notify);
    case Testing => assert Proper(Test) && Enabled(p, Test);
    case _ => WorkerMoves(p);
  }

  lemma WorkerMoves(p: Pool)
    requires Inv(p) && p.caller == Waiting
    ensures exists s :: Proper(s) && Enabled(p, s)
  {
    if p.next < p.njobs {
      match p.workers[0]
      case Checking => assert Proper(Claim(0)) && Enabled(p, Claim(0));
      case Claimed(_) => assert Proper(Enter(0)) && Enabled(p, Enter(0));
      case Running(_, _, _) => RunnerMoves(p, 0);
      case Finishing => assert Proper(Finish(0)) && Enabled(p, Finish(0));
      case Asleep => assert false;
    } else {
      NoneBusy(p.workers, 0);
      var i :| 0 <= i < |p.workers| && Holds(p.workers[i]);
      if p.workers[i].Running? {
        RunnerMoves(p, i);
      } else {
        assert Enabled(p, if p.workers[i].Claimed? then Enter(i) else Finish(i));
      }
    }
  }

  /** A worker inside a job call can take its next row or return. */
  lemma RunnerMoves(p: Pool, i: nat)
    requires i < |p.workers| && p.workers[i].Running?
    ensures exists s :: Proper(s) && Enabled(p, s)
  {
    var done := p.workers[i].at >= Size(p.workers[i].job, p.workers[i].idx);
    assert Proper(if done then Leave(i) else Row(i)) && Enabled(p, if done then Leave(i) else Row(i));
  }

  lemma ClaimProgress(p: Pool, w: nat)
    requires Enabled(p, Claim(w)) && p.next <= p.njobs
    ensures 0 <= Measure(Apply(p, Claim(w))) < Measure(p)
  {
    WeightsChange(p.workers, w, if p.next < p.njobs then Claimed(p.next) else Asleep);
  }

  lemma MoveProgress(p: Pool, w: nat, now: Worker)
    requires w < |p.workers| && p.next <= p.njobs && Weight(now) < Weight(p.workers[w])
    ensures 0 <= Measure(p.(workers := p.workers[w := now])) < Measure(p)
  {
    WeightsChange(p.workers, w, now);
  }

  lemma FinishProgress(p: Pool, w: nat)
    requires Enabled(p, Finish(w)) && p.next <= p.njobs
    ensures 0 <= Measure(Apply(p, Finish(w))) < Measure(p)
  {
    WeightsChange(p.workers, w, Checking);
  }

  lemma LeaveProgress(p: Pool, w: nat)
    requires Enabled(p, Leave(w)) && p.next <= p.njobs
    ensures 0 <= Measure(Apply(p, Leave(w))) < Measure(p)
  {
    WeightsChange(p.workers, w, Finishing);
  }

  lemma CallerProgress(p: Pool, s: Step)
    requires (s.Notify? || s.Test?) && Enabled(p, s) && p.next <= p.njobs
    ensures 0 <= Measure(Apply(p, s)) < Measure(p)
  {
    WakingWeighs(p.workers);
  }

  /** Every proper step brings the return of run strictly closer, so a run takes at most Measure(p) of them. */
  lemma Progress(p: Pool, s: Step)
    requires Inv(p) && Enabled(p, s) && Proper(s)
    ensures 0 <= Measure(Apply(p, s)) < Measure(p)
  {
    InBounds(p);
    hide Inv, Measure;
    match s
    case Claim(w) => ClaimProgress(p, w);
    case Enter(w) => MoveProgress(p, w, Running(p.job, p.workers[w].idx, 0));
    case Row(w) => MoveProgress(p, w, p.workers[w].(at := p.workers[w].at + 1));
    case Leave(w) => LeaveProgress(p, w);
    case Finish(w) => FinishProgress(p, w);
    case _ => CallerProgress(p, s);
  }

  lemma InBounds(p: Pool)
    requires Inv(p)
    ensures p.next <= p.njobs
  {
  }
}
