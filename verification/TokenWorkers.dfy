/** In every reachable state each worker's token list, followed by what its queue will still deliver, is the
    request's tokens up to the send tracker: no gap, no duplicate, no stale draft. */
module TokenWorkers {
  import opened TokenProtocol
  import opened TokenScheduler

  /** What a worker knows of the request. */
  datatype View = Unknown | Known(tokens: seq<int>)

  function ViewOf(w: Worker): View { if w.known then Known(w.tokens) else Unknown }

  /** The effect of a message on the view, drop rule included. */
  function After(v: View, m: Msg): View {
    match m
    case New(p) => Known(p)
    case Cached(_, _, _, _, _) => if v.Known? then Known(v.tokens + Fresh(|v.tokens|, m)) else v
    case Absent => v
    case Gone => Unknown
  }

  /** The position after the last real token of a message's step. */
  function RealEnd(m: Msg): int
    requires m.Cached?
  {
    m.computed + m.scheduled - |m.drafts|
  }

  /** The message continues the view: its tokens start where the view ends, or it brings none and needs none. */
  predicate Continues(v: View, m: Msg, maxLen: nat) {
    match m
    case New(p) => v.Unknown? && |p| < maxLen
    case Cached(slice, computed, _, _, _) =>
      && v.Known? && 0 <= computed < RealEnd(m) <= maxLen
      && if slice == [] then RealEnd(m) <= |v.tokens| else RealEnd(m) - |slice| == |v.tokens|
    case _ => true
  }

  function Fold(v: View, inbox: seq<Msg>): View
    decreases |inbox|
  {
    if |inbox| == 0 then v else Fold(After(v, inbox[0]), inbox[1..])
  }

  predicate Consistent(v: View, inbox: seq<Msg>, maxLen: nat)
    decreases |inbox|
  {
    |inbox| == 0 || (Continues(v, inbox[0], maxLen) && Consistent(After(v, inbox[0]), inbox[1..], maxLen))
  }

  lemma {:induction false} FoldSnoc(v: View, inbox: seq<Msg>, m: Msg, maxLen: nat)
    requires Consistent(v, inbox, maxLen) && Continues(Fold(v, inbox), m, maxLen)
    ensures Consistent(v, inbox + [m], maxLen) && Fold(v, inbox + [m]) == After(Fold(v, inbox), m)
    decreases |inbox|
  {
    hide Continues, After;
    if |inbox| == 0 {
      assert inbox + [m] == [m];
    } else {
      FoldSnoc(After(v, inbox[0]), inbox[1..], m, maxLen);
      assert (inbox + [m])[1..] == inbox[1..] + [m];
    }
  }

  /** The settled part of the batch row is the token list. */
  predicate RowOk(w: Worker) {
    w.inBatch ==> w.known && w.settled == |w.tokens| <= |w.row| && w.row[..w.settled] == w.tokens
  }

  /** A continuing message can be delivered, drops nothing, and settles exactly the tokens it brings. */
  lemma DeliverOk(w: Worker, m: Msg, maxLen: nat)
    requires RowOk(w) && |w.row| == maxLen && Continues(ViewOf(w), m, maxLen)
    requires w.known ==> |w.tokens| <= maxLen
    ensures CanDeliver(w, m)
    ensures m.Cached? ==> Fresh(|w.tokens|, m) == m.slice
    ensures var w' := Deliver(w, m);
            && RowOk(w') && |w'.row| == maxLen && ViewOf(w') == After(ViewOf(w), m)
            && (w'.known ==> |w'.tokens| <= maxLen)
  {
    if m.Cached? {
      assert Dropped(|w.tokens|, m) == 0;
      assert m.slice[0..] == m.slice;
    }
  }

  // ----- the system

  /** What a worker will know once its queue is drained. */
  function Expected(s: Sched): View {
    if s.status == Idle || s.status == Waiting || SentUpTo(s) > |s.all| then Unknown else Known(s.all[..SentUpTo(s)])
  }

  ghost predicate WorkerInv(w: Worker, inbox: seq<Msg>, want: View, maxLen: nat) {
    && RowOk(w) && |w.row| == maxLen && (w.known ==> |w.tokens| <= maxLen)
    && Consistent(ViewOf(w), inbox, maxLen) && Fold(ViewOf(w), inbox) == want
  }

  ghost predicate Inv(sys: System, maxLen: nat) {
    && SchedInv(sys.s, maxLen) && |sys.workers| == |sys.inboxes|
    && forall w :: 0 <= w < |sys.workers| ==> WorkerInv(sys.workers[w], sys.inboxes[w], Expected(sys.s), maxLen)
  }

  ghost predicate Init(sys: System, maxLen: nat) {
    && sys.s.status == Idle && sys.s.sent == 0 && sys.s.flights == [] && |sys.workers| == |sys.inboxes|
    && forall w :: 0 <= w < |sys.workers| ==>
         sys.inboxes[w] == [] && !sys.workers[w].known && !sys.workers[w].inBatch && |sys.workers[w].row| == maxLen
  }

  lemma InitInv(sys: System, maxLen: nat)
    requires Init(sys, maxLen)
    ensures Inv(sys, maxLen)
  {
  }

  /** Broadcasting a continuing message. */
  lemma SendInv(sys: System, s: Sched, m: Msg, maxLen: nat)
    requires Inv(sys, maxLen) && SchedInv(s, maxLen)
    requires Continues(Expected(sys.s), m, maxLen) && Expected(s) == After(Expected(sys.s), m)
    ensures Inv(Send(sys, s, m), maxLen)
  {
    hide SchedInv, Continues, After, Expected, RowOk;
    forall w: nat | w < |sys.workers|
      ensures WorkerInv(sys.workers[w], Send(sys, s, m).inboxes[w], Expected(s), maxLen)
    {
      assert WorkerInv(sys.workers[w], sys.inboxes[w], Expected(sys.s), maxLen);
      FoldSnoc(ViewOf(sys.workers[w]), sys.inboxes[w], m, maxLen);
    }
  }

  /** The scheduler moves on without a message and without changing what is expected. */
  lemma QuietInv(sys: System, s: Sched, maxLen: nat)
    requires Inv(sys, maxLen) && SchedInv(s, maxLen) && Expected(s) == Expected(sys.s)
    ensures Inv(sys.(s := s), maxLen)
  {
    hide SchedInv, WorkerInv, Expected;
  }

  /** What is sent is exactly what is missing. */
  lemma SliceContinues(s: Sched, maxLen: nat, computed: int, n: nat, drafts: seq<int>, resumed: bool)
    requires s.prompt <= s.all && SentUpTo(s) <= |s.all| < maxLen
    requires 0 <= computed && |drafts| < n && computed + n - |drafts| <= |s.all|
    ensures var m, v := CachedMsg(s, computed, n, drafts, resumed), Known(s.all[..SentUpTo(s)]);
            Continues(v, m, maxLen) && After(v, m) == Known(s.all[..Tracked(s, computed, n, drafts)])
  {
    var from, end := SentUpTo(s), computed + n - |drafts|;
    var m, have := CachedMsg(s, computed, n, drafts, resumed), s.all[..from];
    if from < end {
      assert m.slice == s.all[from..end];
      assert have + m.slice == s.all[..end];
      assert m.slice[0..] == m.slice;
    } else {
      assert m.slice == [] && have + [] == have;
    }
  }

  lemma ScheduleSends(s: Sched, maxLen: nat, n: nat)
    requires SchedInv(s, maxLen) && CanSchedule(s, n)
    ensures var (s', m) := Schedule(s, n);
            Continues(Expected(s), m, maxLen) && Expected(s') == After(Expected(s), m)
  {
    hide SchedInv, Continues, After;
    RunningFacts(s, maxLen);
    StepShape(s, n);
    SliceContinues(s, maxLen, s.computed, n, Drafts(s, n), false);
  }

  lemma NewSends(s: Sched, maxLen: nat, hit: nat, count: nat, pad: nat)
    requires s.prompt == s.all && |s.prompt| < maxLen && s.sent == 0 && s.status == Waiting
    requires CanAdmit(s, hit, count, pad)
    ensures Continues(Expected(s), New(s.prompt), maxLen)
    ensures Expected(Admit(s, hit, count, pad).0) == After(Expected(s), New(s.prompt))
  {
    assert s.all[..|s.prompt|] == s.prompt;
  }

  lemma ResumeSends(s: Sched, maxLen: nat, hit: nat, count: nat, pad: nat)
    requires s.status == Preempted && s.prompt <= s.all && SentUpTo(s) <= |s.all| < maxLen
    requires CanAdmit(s, hit, count, pad)
    ensures var (s', m) := Admit(s, hit, count, pad);
            Continues(Expected(s), m, maxLen) && Expected(s') == After(Expected(s), m)
  {
    hide Continues, After;
    SliceContinues(s, maxLen, hit, count + pad, Placeholders(pad), true);
  }

  lemma AdmitSends(s: Sched, maxLen: nat, hit: nat, count: nat, pad: nat)
    requires SchedInv(s, maxLen) && CanAdmit(s, hit, count, pad)
    ensures var (s', m) := Admit(s, hit, count, pad);
            Continues(Expected(s), m, maxLen) && Expected(s') == After(Expected(s), m)
  {
    hide SchedInv, Continues, After, Expected;
    RunningFacts(s, maxLen);
    if s.status == Waiting { NewSends(s, maxLen, hit, count, pad); } else { ResumeSends(s, maxLen, hit, count, pad); }
  }

  lemma GoneSends(s: Sched, s': Sched, maxLen: nat)
    requires s'.status == Idle
    ensures Continues(Expected(s), Gone, maxLen) && Expected(s') == After(Expected(s), Gone)
  {
  }

  lemma OutputQuiet(s: Sched, maxLen: nat, generated: seq<int>, stops: seq<int> -> bool)
    requires SchedInv(s, maxLen) && |s.flights| > 0 && Fits(s.flights[0], generated)
    requires forall a: seq<int> :: |a| >= maxLen ==> stops(a)
    requires s.status == Idle || Output(s, generated, stops).status != Idle
    ensures Expected(Output(s, generated, stops)) == Expected(s)
  {
    OutputInv(s, maxLen, generated, stops);
    hide Append;
    if s.status != Idle {
      RunningFacts(s, maxLen);
      var s' := Output(s, generated, stops);
      assert s'.all[..SentUpTo(s)] == s.all[..SentUpTo(s)];
    }
  }

  lemma AddInv(sys: System, maxLen: nat, prompt: seq<int>)
    requires Inv(sys, maxLen) && Enabled(sys, maxLen, Add(prompt))
    ensures Inv(Apply(sys, Add(prompt)), maxLen)
  {
    QuietInv(sys, Apply(sys, Add(prompt)).s, maxLen);
  }

  lemma DeliverInv(sys: System, maxLen: nat, w: nat)
    requires Inv(sys, maxLen) && Enabled(sys, maxLen, DeliverStep(w))
    ensures CanDeliver(sys.workers[w], sys.inboxes[w][0])
    ensures Inv(Apply(sys, DeliverStep(w)), maxLen)
  {
    hide SchedInv, Continues, RowOk, After, Expected;
    assert WorkerInv(sys.workers[w], sys.inboxes[w], Expected(sys.s), maxLen);
    DeliverOk(sys.workers[w], sys.inboxes[w][0], maxLen);
    var next := Apply(sys, DeliverStep(w));
    forall x: nat | x < |next.workers|
      ensures WorkerInv(next.workers[x], next.inboxes[x], Expected(next.s), maxLen)
    {
      assert WorkerInv(sys.workers[x], sys.inboxes[x], Expected(sys.s), maxLen);
    }
  }

  /** Every step the system can take is defined and keeps the invariant. */
  lemma StepInv(sys: System, maxLen: nat, step: Step)
    requires Inv(sys, maxLen) && Enabled(sys, maxLen, step)
    ensures step.DeliverStep? ==> CanDeliver(sys.workers[step.w], sys.inboxes[step.w][0])
    ensures Inv(Apply(sys, step), maxLen)
  {
    hide SchedInv, WorkerInv, Continues, After, Expected;
    match step
    case Add(p) => AddInv(sys, maxLen, p);
    case AdmitStep(hit, count, pad) =>
      AdmitInv(sys.s, maxLen, hit, count, pad);
      AdmitSends(sys.s, maxLen, hit, count, pad);
      SendInv(sys, Admit(sys.s, hit, count, pad).0, Admit(sys.s, hit, count, pad).1, maxLen);
    case ScheduleStep(n) =>
      ScheduleInv(sys.s, maxLen, n);
      ScheduleSends(sys.s, maxLen, n);
      SendInv(sys, Schedule(sys.s, n).0, Schedule(sys.s, n).1, maxLen);
    case SkipStep =>
      AbsentSends(sys.s, maxLen);
      SendInv(sys, sys.s, Absent, maxLen);
    case Propose(drafts) => ProposeInv(sys, maxLen, drafts);
    case OutputStep(generated, stops) => OutputStepInv(sys, maxLen, generated, stops);
    case PreemptStep(drop) =>
      PreemptInv(sys.s, maxLen, drop);
      PreemptQuiet(sys.s, drop);
      QuietInv(sys, Preempt(sys.s, drop), maxLen);
    case Abort =>
      AbortInv(sys, maxLen);
    case DeliverStep(w) => DeliverInv(sys, maxLen, w);
  }

  lemma AbsentSends(s: Sched, maxLen: nat)
    ensures Continues(Expected(s), Absent, maxLen) && Expected(s) == After(Expected(s), Absent)
  {
  }

  lemma PreemptQuiet(s: Sched, drop: bool)
    requires s.status == Running
    ensures Expected(Preempt(s, drop)) == Expected(s)
  {
  }

  lemma ProposeInv(sys: System, maxLen: nat, drafts: seq<int>)
    requires Inv(sys, maxLen) && sys.s.status != Idle
    ensures Inv(sys.(s := sys.s.(spec := drafts)), maxLen)
  {
    hide WorkerInv;
    QuietInv(sys, sys.s.(spec := drafts), maxLen);
  }

  lemma AbortInv(sys: System, maxLen: nat)
    requires Inv(sys, maxLen)
    ensures Inv(Send(sys, Free(sys.s), Gone), maxLen)
  {
    hide WorkerInv;
    FreeInv(sys.s, maxLen);
    GoneSends(sys.s, Free(sys.s), maxLen);
    SendInv(sys, Free(sys.s), Gone, maxLen);
  }

  lemma OutputStepInv(sys: System, maxLen: nat, generated: seq<int>, stops: seq<int> -> bool)
    requires Inv(sys, maxLen) && Enabled(sys, maxLen, OutputStep(generated, stops))
    ensures Inv(Apply(sys, OutputStep(generated, stops)), maxLen)
  {
    hide WorkerInv, SchedInv, Output, Expected, Continues, After;
    var s' := Output(sys.s, generated, stops);
    OutputInv(sys.s, maxLen, generated, stops);
    if sys.s.status != Idle && s'.status == Idle {
      GoneSends(sys.s, s', maxLen);
      SendInv(sys, s', Gone, maxLen);
    } else {
      OutputQuiet(sys.s, maxLen, generated, stops);
      QuietInv(sys, s', maxLen);
    }
  }

  // ----- runs

  /** A run from an initial state; deliveries are only taken where the worker can apply the message. */
  ghost predicate Trace(states: seq<System>, steps: seq<Step>, maxLen: nat) {
    && |states| == |steps| + 1 && Init(states[0], maxLen)
    && forall i, j :: 0 <= i < |steps| && j == i + 1 ==> Takes(states[i], steps[i], states[j], maxLen)
  }

  ghost predicate Takes(sys: System, step: Step, next: System, maxLen: nat) {
    && Enabled(sys, maxLen, step)
    && (step.DeliverStep? ==> CanDeliver(sys.workers[step.w], sys.inboxes[step.w][0]))
    && next == Apply(sys, step)
  }

  lemma {:induction false} TraceInv(states: seq<System>, steps: seq<Step>, maxLen: nat, i: nat)
    requires Trace(states, steps, maxLen) && i < |states|
    ensures Inv(states[i], maxLen)
    decreases i
  {
    hide Inv, Init, Apply, Enabled;
    if i == 0 {
      InitInv(states[0], maxLen);
    } else {
      TraceInv(states, steps, maxLen, i - 1);
      assert Takes(states[i - 1], steps[i - 1], states[i], maxLen);
      StepInv(states[i - 1], maxLen, steps[i - 1]);
    }
  }

  /** The workers have been told of the request and it is not finished. */
  predicate InService(s: Sched) { s.status == Running || s.status == Preempted }

  /** In every reachable state: a worker's tokens followed by its queue are the request's tokens up to
      max(sent, prompt length); the next message can be applied and repeats nothing; the batch row is the list. */
  lemma WorkersFollow(states: seq<System>, steps: seq<Step>, maxLen: nat, i: nat, w: nat)
    requires Trace(states, steps, maxLen) && i < |states| && w < |states[i].workers|
    ensures |states[i].inboxes| == |states[i].workers|
    ensures InService(states[i].s) ==> SentUpTo(states[i].s) <= |states[i].s.all|
    ensures var s := states[i].s;
            Fold(ViewOf(states[i].workers[w]), states[i].inboxes[w]) ==
            if InService(s) then Known(s.all[..SentUpTo(s)]) else Unknown
    ensures var worker, inbox := states[i].workers[w], states[i].inboxes[w];
            |inbox| > 0 ==> CanDeliver(worker, inbox[0])
                            && (inbox[0].Cached? ==> Fresh(|worker.tokens|, inbox[0]) == inbox[0].slice)
    ensures var worker := states[i].workers[w];
            worker.inBatch ==> worker.known && worker.settled == |worker.tokens| <= |worker.row|
                               && worker.row[..worker.settled] == worker.tokens
  {
    TraceInv(states, steps, maxLen, i);
    var sys := states[i];
    if sys.s.status != Idle { RunningFacts(sys.s, maxLen); }
    assert WorkerInv(sys.workers[w], sys.inboxes[w], Expected(sys.s), maxLen);
    if |sys.inboxes[w]| > 0 { DeliverOk(sys.workers[w], sys.inboxes[w][0], maxLen); }
  }

  /** In every reachable state: each step in flight carries a real token; a running request has at most one live
      step that reaches its last real token, and it is the newest in flight; nothing scheduled goes past it. */
  lemma OneSamplingStep(states: seq<System>, steps: seq<Step>, maxLen: nat, i: nat, f: nat)
    requires Trace(states, steps, maxLen) && i < |states| && f < |states[i].s.flights|
    ensures var s := states[i].s; s.flights[f].n > |s.flights[f].drafts|
    ensures var s := states[i].s;
            s.status == Running && s.flights[f].live ==>
              && s.flights[f].end <= |s.all| && (s.flights[f].samples <==> s.flights[f].end == |s.all|)
              && (s.flights[f].samples ==> f == |s.flights| - 1)
    ensures var s := states[i].s;
            s.status != Idle ==> s.stale == StaleTotal(s.flights) && (s.stale > 0 ==> s.stale >= s.flights[0].n)
  {
    TraceInv(states, steps, maxLen, i);
    var s := states[i].s;
    if s.status != Idle { DrainsInLockstep(s, maxLen); }
    if s.status == Running && f < |s.flights| - 1 { assert Chunk(s.flights[f], |s.all|); }
  }
}
