/** What every operation keeps on the scheduler's side: stale accounting, the one sampling step, the send tracker. */
module TokenScheduler {
  import opened Basics
  import opened TokenProtocol

  function Total(fs: seq<Flight>): nat {
    if |fs| == 0 then 0 else fs[0].n + Total(fs[1..])
  }

  function StaleTotal(fs: seq<Flight>): nat {
    if |fs| == 0 then 0 else (if fs[0].live then 0 else fs[0].n) + StaleTotal(fs[1..])
  }

  /** Every step carries a real token, and stale steps are older than live ones. */
  ghost predicate FlightsOk(fs: seq<Flight>) {
    && (forall i :: 0 <= i < |fs| ==> fs[i].n > |fs[i].drafts|)
    && forall i, j :: 0 <= i < j < |fs| && fs[i].live ==> fs[j].live
  }

  /** A live step that is not the newest stops short of the last real token and carries no drafts. */
  predicate Chunk(f: Flight, count: nat) { f.live ==> !f.samples && f.drafts == [] && f.end < count }

  /** The newest live step: the request's computed count is what it leaves if all drafts hold, and it samples
      exactly if it reaches the last real token. */
  predicate Newest(f: Flight, count: nat, computed: int) {
    && f.end <= count && computed == f.end + |f.drafts|
    && (f.samples <==> f.end == count) && (!f.samples ==> f.drafts == [])
  }

  predicate AnyLive(fs: seq<Flight>) { |fs| > 0 && fs[|fs| - 1].live }

  ghost predicate RunningOk(s: Sched) {
    && (s.stale > 0 ==> s.drop) && 0 <= s.computed
    && (forall i :: 0 <= i < |s.flights| - 1 ==> Chunk(s.flights[i], |s.all|))
    && if AnyLive(s.flights) then Newest(s.flights[|s.flights| - 1], |s.all|, s.computed) else s.computed < |s.all|
  }

  ghost predicate SchedInv(s: Sched, maxLen: nat) {
    && FlightsOk(s.flights)
    && match s.status
       case Idle => s.sent == 0
       case _ =>
         && 1 <= |s.prompt| && s.prompt <= s.all && |s.all| < maxLen && s.sent <= |s.all|
         && s.inFlight == Total(s.flights) && s.stale == StaleTotal(s.flights)
         && match s.status
            case Waiting => s.flights == [] && s.computed == 0 && s.sent == 0 && s.all == s.prompt
            case Preempted => s.computed == 0 && !AnyLive(s.flights)
            case _ => RunningOk(s)
  }

  // ----- sums over the queue

  lemma {:induction false} TotalSnoc(fs: seq<Flight>, f: Flight)
    ensures Total(fs + [f]) == Total(fs) + f.n
    ensures StaleTotal(fs + [f]) == StaleTotal(fs) + if f.live then 0 else f.n
  {
    if |fs| > 0 {
      TotalSnoc(fs[1..], f);
      assert (fs + [f])[1..] == fs[1..] + [f];
    }
  }

  lemma {:induction false} StaleBound(fs: seq<Flight>)
    ensures StaleTotal(fs) <= Total(fs)
    ensures (forall i :: 0 <= i < |fs| ==> !fs[i].live) ==> StaleTotal(fs) == Total(fs)
    ensures (forall i :: 0 <= i < |fs| ==> fs[i].live) ==> StaleTotal(fs) == 0
  {
    if |fs| > 0 { StaleBound(fs[1..]); }
  }

  /** Stale output is outstanding exactly while the oldest step is stale. */
  lemma HeadStale(fs: seq<Flight>)
    requires FlightsOk(fs) && |fs| > 0
    ensures StaleTotal(fs) > 0 <==> !fs[0].live
    ensures !fs[0].live ==> StaleTotal(fs) >= fs[0].n
  {
    if fs[0].live { StaleBound(fs); }
  }

  lemma {:induction false} StaleSame(fs: seq<Flight>, gs: seq<Flight>)
    requires |fs| == |gs| && forall i :: 0 <= i < |fs| ==> gs[i] == fs[i].(live := false)
    ensures Total(gs) == Total(fs) && StaleTotal(gs) == Total(fs)
  {
    if |fs| > 0 { StaleSame(fs[1..], gs[1..]); }
  }

  lemma QueueTail(fs: seq<Flight>)
    requires FlightsOk(fs) && |fs| > 0
    ensures FlightsOk(fs[1..])
    ensures |fs| > 1 ==> AnyLive(fs[1..]) == AnyLive(fs)
  {
  }

  lemma QueuePush(fs: seq<Flight>, f: Flight)
    requires FlightsOk(fs) && f.n > |f.drafts| && f.live
    ensures FlightsOk(fs + [f]) && AnyLive(fs + [f])
  {
  }

  // ----- the operations

  /** A running request may be scheduled only when its newest live step is a chunk. */
  lemma ChunksBehind(s: Sched, maxLen: nat, n: nat)
    requires SchedInv(s, maxLen) && CanSchedule(s, n)
    ensures forall i :: 0 <= i < |s.flights| ==> Chunk(s.flights[i], |s.all|)
  {
    if |s.flights| > 0 {
      var f := s.flights[|s.flights| - 1];
      assert forall i :: 0 <= i < |s.flights| - 1 ==> Chunk(s.flights[i], |s.all|);
    }
  }

  /** The real part of a scheduled step ends at the last real token at the latest, and drafts come only after it. */
  lemma StepShape(s: Sched, n: nat)
    requires CanSchedule(s, n)
    ensures var drafts := Drafts(s, n); var end := s.computed + n - |drafts|;
            && |drafts| < n && end == Min(s.computed + n, |s.all|) && s.computed < end
            && (end < |s.all| ==> drafts == [])
  {
  }

  /** The drafts of a scheduled step are the proposed ones in order, from the first, as many as its tokens past the last
      real one; the step in flight and the workers' message carry the same. */
  lemma ScheduledDrafts(s: Sched, n: nat)
    requires CanSchedule(s, n)
    ensures var (next, m) := Schedule(s, n);
            var past := s.computed + n - |s.all|;
            && next.spec == [] && next.flights == s.flights + [next.flights[|s.flights|]]
            && m.Cached? && m.drafts == next.flights[|s.flights|].drafts && m.drafts <= s.spec
            && |m.drafts| == (if past <= 0 then 0 else if past < |s.spec| then past else |s.spec|)
  {
  }

  /** Without the guard a step could consist of drafts alone: among the counts the budget allows, a step carries
      a real token if and only if the guard holds. */
  lemma GuardExact(s: Sched, n: nat)
    requires s.status == Running && 0 <= s.computed && 1 <= n <= |s.all| + |s.spec| - s.computed
    ensures n > |Drafts(s, n)| <==> s.computed < |s.all|
  {
  }

  lemma LaunchInv(s: Sched, maxLen: nat, computed: nat, n: nat, drafts: seq<int>, sent: nat)
    requires SchedInv(s, maxLen) && s.status != Idle && !(s.stale > 0 && !s.drop)
    requires |drafts| < n && computed + n - |drafts| <= |s.all| && (computed + n - |drafts| < |s.all| ==> drafts == [])
    requires forall i :: 0 <= i < |s.flights| ==> Chunk(s.flights[i], |s.all|)
    requires sent <= |s.all|
    ensures SchedInv(Launch(s, computed, n, drafts).(sent := sent), maxLen)
  {
    var end := computed + n - |drafts|;
    var f := Flight(n, drafts, end, end >= |s.all|, true);
    QueuePush(s.flights, f);
    TotalSnoc(s.flights, f);
    hide Total, StaleTotal, FlightsOk;
  }

  lemma SpecIrrelevant(s: Sched, maxLen: nat, spec: seq<int>)
    requires SchedInv(s, maxLen)
    ensures SchedInv(s.(spec := spec), maxLen)
  {
  }

  lemma ScheduleInv(s: Sched, maxLen: nat, n: nat)
    requires SchedInv(s, maxLen) && CanSchedule(s, n)
    ensures SchedInv(Schedule(s, n).0, maxLen)
  {
    hide SchedInv;
    ChunksBehind(s, maxLen, n);
    StepShape(s, n);
    RunningFacts(s, maxLen);
    var sent := Tracked(s, s.computed, n, Drafts(s, n));
    LaunchInv(s, maxLen, s.computed, n, Drafts(s, n), sent);
    SpecIrrelevant(Launch(s, s.computed, n, Drafts(s, n)).(sent := sent), maxLen, []);
  }

  lemma RunningFacts(s: Sched, maxLen: nat)
    requires SchedInv(s, maxLen) && s.status != Idle
    ensures SentUpTo(s) <= |s.all| < maxLen && 1 <= |s.prompt| && s.prompt <= s.all
    ensures s.status == Running ==> !(s.stale > 0 && !s.drop)
    ensures s.status != Running ==> forall i :: 0 <= i < |s.flights| ==> !s.flights[i].live
    ensures s.status == Waiting ==> s.all == s.prompt && s.sent == 0
  {
  }

  lemma AdmitInv(s: Sched, maxLen: nat, hit: nat, count: nat, pad: nat)
    requires SchedInv(s, maxLen) && CanAdmit(s, hit, count, pad)
    ensures SchedInv(Admit(s, hit, count, pad).0, maxLen)
  {
    hide SchedInv;
    RunningFacts(s, maxLen);
    var drafts := Placeholders(pad);
    LaunchInv(s, maxLen, hit, count + pad, drafts,
              if s.status == Waiting then s.sent else Tracked(s, hit, count + pad, drafts));
  }

  lemma PreemptInv(s: Sched, maxLen: nat, drop: bool)
    requires SchedInv(s, maxLen) && s.status == Running
    ensures SchedInv(Preempt(s, drop), maxLen)
  {
    StaleSame(s.flights, Preempt(s, drop).flights);
  }

  lemma FreeInv(s: Sched, maxLen: nat)
    requires FlightsOk(s.flights)
    ensures SchedInv(Free(s), maxLen)
  {
  }

  /** The stale counter never goes below zero: it drains in lockstep with the stale steps. */
  lemma DrainsInLockstep(s: Sched, maxLen: nat)
    requires SchedInv(s, maxLen) && s.status != Idle && |s.flights| > 0
    ensures s.stale > 0 ==> s.stale >= s.flights[0].n
    ensures s.stale > 0 <==> !s.flights[0].live
  {
    HeadStale(s.flights);
  }

  lemma {:induction false} AppendBound(all: seq<int>, generated: seq<int>, stops: seq<int> -> bool, maxLen: nat)
    requires |all| < maxLen && forall a: seq<int> :: |a| >= maxLen ==> stops(a)
    ensures !Append(all, generated, stops).1 ==> |Append(all, generated, stops).0| < maxLen
    decreases |generated|
  {
    if |generated| > 0 {
      var more := all + [generated[0]];
      if !stops(more) { AppendBound(more, generated[1..], stops, maxLen); }
    }
  }

  /** The counters after the oldest step leaves the queue. */
  lemma Drained(s: Sched, maxLen: nat)
    requires SchedInv(s, maxLen) && s.status != Idle && |s.flights| > 0
    ensures var f := s.flights[0]; var stale := if s.stale > 0 then s.stale - f.n else s.stale;
            && s.inFlight - f.n == Total(s.flights[1..]) && stale == StaleTotal(s.flights[1..])
  {
    HeadStale(s.flights);
    StaleBound(s.flights[1..]);
  }

  /** The state with the oldest step's share drained and nothing else changed. */
  function Drain(s: Sched): Sched
    requires |s.flights| > 0
  {
    var f := s.flights[0];
    s.(flights := s.flights[1..], inFlight := s.inFlight - f.n, stale := if s.stale > 0 then s.stale - f.n else s.stale)
  }

  /** Draining alone keeps the invariant when the step was stale or a chunk. */
  lemma DrainInv(s: Sched, maxLen: nat)
    requires SchedInv(s, maxLen) && s.status != Idle && |s.flights| > 0
    requires !s.flights[0].live || |s.flights| > 1 || !s.flights[0].samples
    ensures SchedInv(Drain(s), maxLen)
  {
    Drained(s, maxLen);
    QueueTail(s.flights);
  }

  /** Deliverable stale output arrives only while the request waits to be resumed. */
  lemma StaleWaits(s: Sched, maxLen: nat)
    requires SchedInv(s, maxLen) && s.status != Idle && s.stale > 0 && !s.drop && |s.flights| > 0
    ensures s.status == Preempted
  {
  }

  lemma GrowPreempted(s: Sched, maxLen: nat, all: seq<int>)
    requires SchedInv(s, maxLen) && s.status == Preempted && s.all <= all && |all| < maxLen
    ensures SchedInv(s.(all := all), maxLen)
  {
  }

  /** The newest live step alone in flight: its output rolls back the rejected drafts and leaves exactly one
      real token to compute. */
  lemma SampleInv(s: Sched, maxLen: nat, generated: seq<int>, all: seq<int>)
    requires SchedInv(s, maxLen) && s.status == Running && |s.flights| == 1 && s.flights[0].live && s.flights[0].samples
    requires Fits(s.flights[0], generated) && all == s.all + generated && |all| < maxLen
    ensures var rejected := |s.flights[0].drafts| - (|generated| - 1);
            && s.computed > 0 && s.computed - rejected == |all| - 1
            && SchedInv(Drain(s).(computed := s.computed - rejected, all := all), maxLen)
  {
    Drained(s, maxLen);
    QueueTail(s.flights);
    HeadStale(s.flights);
  }

  /** A live step that does not sample, or any step of another status, leaves the tokens alone. */
  lemma LiveIsNewest(s: Sched, maxLen: nat)
    requires SchedInv(s, maxLen) && s.status != Idle && |s.flights| > 0 && s.flights[0].live
    ensures s.status == Running && s.stale == 0
    ensures s.flights[0].samples ==> |s.flights| == 1
    ensures !s.flights[0].samples ==> s.flights[0].drafts == []
  {
    HeadStale(s.flights);
    if |s.flights| > 1 { assert Chunk(s.flights[0], |s.all|); }
  }

  lemma OutputInv(s: Sched, maxLen: nat, generated: seq<int>, stops: seq<int> -> bool)
    requires SchedInv(s, maxLen) && |s.flights| > 0 && Fits(s.flights[0], generated)
    requires forall a: seq<int> :: |a| >= maxLen ==> stops(a)
    ensures SchedInv(Output(s, generated, stops), maxLen)
    ensures s.status != Idle ==> s.all <= Output(s, generated, stops).all
  {
    hide SchedInv, Append, FlightsOk, Chunk;
    QueueOk(s, maxLen);
    if s.status == Idle {
      IdleInv(s, maxLen);
    } else {
      DrainsInLockstep(s, maxLen);
      RunningFacts(s, maxLen);
      AppendBound(s.all, generated, stops, maxLen);
      if s.flights[0].live {
        LiveIsNewest(s, maxLen);
        if s.flights[0].samples && !Append(s.all, generated, stops).1 {
          SampleInv(s, maxLen, generated, s.all + generated);
        } else if !s.flights[0].samples {
          DrainInv(s, maxLen);
          AppendNothing(s.all, stops);
        }
      } else {
        DrainInv(s, maxLen);
        if !s.drop && !Append(s.all, generated, stops).1 {
          StaleWaits(s, maxLen);
          GrowPreempted(Drain(s), maxLen, s.all + generated);
        }
      }
      if Output(s, generated, stops).status == Idle { FreedInv(Output(s, generated, stops), maxLen); }
    }
  }

  lemma AppendNothing(all: seq<int>, stops: seq<int> -> bool)
    ensures Append(all, [], stops) == (all, false)
  {
  }

  lemma QueueOk(s: Sched, maxLen: nat)
    requires SchedInv(s, maxLen) && |s.flights| > 0
    ensures FlightsOk(s.flights) && FlightsOk(s.flights[1..])
  {
    QueueTail(s.flights);
  }

  lemma IdleInv(s: Sched, maxLen: nat)
    requires SchedInv(s, maxLen) && s.status == Idle && |s.flights| > 0
    ensures SchedInv(s.(flights := s.flights[1..]), maxLen)
  {
    QueueTail(s.flights);
  }

  lemma FreedInv(s: Sched, maxLen: nat)
    requires s.status == Idle && s.sent == 0 && FlightsOk(s.flights)
    ensures SchedInv(s, maxLen)
  {
  }
}
