/** Which outputs reach a request: a ledger kept from the steps alone, and the request's tokens read off it. */
module TokenLedger {
  import opened TokenProtocol
  import opened TokenScheduler
  import opened TokenWorkers

  /** Of the generated tokens the first k are kept: none of the earlier ones stops the request, and if some are cut off
      the last one kept does. */
  ghost predicate Kept(all: seq<int>, generated: seq<int>, stops: seq<int> -> bool, k: nat) {
    && k <= |generated| && (forall j: nat :: 1 <= j < k ==> !stops(all + generated[..j]))
    && (k < |generated| ==> k >= 1 && stops(all + generated[..k]))
  }

  /** The last token kept stops the request. */
  predicate Ends(all: seq<int>, generated: seq<int>, stops: seq<int> -> bool, k: nat)
    requires k <= |generated|
  {
    k >= 1 && stops(all + generated[..k])
  }

  lemma {:induction false} AppendKeeps(all: seq<int>, generated: seq<int>, stops: seq<int> -> bool) returns (k: nat)
    ensures Kept(all, generated, stops, k)
    ensures Append(all, generated, stops) == (all + generated[..k], Ends(all, generated, stops, k))
    decreases |generated|
  {
    if |generated| == 0 {
      k := 0;
      assert all + generated[..0] == all;
    } else {
      var more := all + [generated[0]];
      assert all + generated[..1] == more;
      if stops(more) {
        k := 1;
      } else {
        var rest := AppendKeeps(more, generated[1..], stops);
        k := rest + 1;
        forall j: nat | 1 <= j <= |generated|
          ensures all + generated[..j] == more + generated[1..][..j - 1]
        {
        }
        forall j: nat | 1 <= j < k
          ensures !stops(all + generated[..j])
        {
          if j > 1 { assert all + generated[..j] == more + generated[1..][..j - 1]; }
        }
        assert all + generated[..k] == more + generated[1..][..rest];
        if rest == 0 { assert more + generated[1..][..0] == more; }
      }
    }
  }

  /** What an output step does to the tokens: a dropped stale output adds nothing; any other output, stale or live, adds
      the generated tokens up to and including the first that stops, and that one ends the request. */
  lemma OutputTokens(s: Sched, generated: seq<int>, stops: seq<int> -> bool) returns (k: nat)
    requires |s.flights| > 0 && s.status != Idle
    ensures Kept(s.all, generated, stops, k)
    ensures var s' := Output(s, generated, stops);
            && s'.prompt == s.prompt && s'.flights == s.flights[1..]
            && (if s.stale > 0 && s.drop then s'.all == s.all && s'.status == s.status && s'.drop == s.drop
                else && s'.all == s.all + generated[..k] && s'.drop == s.drop
                     && s'.status == if Ends(s.all, generated, stops, k) then Idle else s.status)
  {
    k := AppendKeeps(s.all, generated, stops);
    hide Append;
  }

  // ----- the ledger

  /** What becomes of a step's output: delivered as of a live step, delivered after a preemption, or dropped. */
  datatype Due = Timely | Late | Lost

  /** A request, whether it is open, the outputs delivered to it in order, and the steps in flight. */
  datatype Ledger = Ledger(open: bool, prompt: seq<int>, out: seq<int>, due: seq<Due>)

  /** How a step changes the ledger, whatever the scheduler's own counters say: a scheduled step is due; a preemption
      that drops, or one behind outputs already lost, loses everything in flight, any other makes it late; an output of
      an open request is delivered up to its stop unless it is lost. */
  ghost predicate Records(a: Ledger, step: Step, b: Ledger) {
    match step
    case Add(p) => b == Ledger(true, p, [], [])
    case AdmitStep(_, _, _) => b == a.(due := a.due + [Timely])
    case ScheduleStep(_) => b == a.(due := a.due + [Timely])
    case PreemptStep(drop) => b == a.(due := seq(|a.due|, _ => if drop || Lost in a.due then Lost else Late))
    case Abort => b == a.(open := false)
    case OutputStep(generated, stops) =>
      && |a.due| > 0
      && if !a.open || a.due[0] == Lost then b == a.(due := a.due[1..])
         else exists k: nat :: Delivers(a, generated, stops, k, b)
    case _ => b == a
  }

  ghost predicate Delivers(a: Ledger, generated: seq<int>, stops: seq<int> -> bool, k: nat, b: Ledger)
    requires |a.due| > 0
  {
    && Kept(a.prompt + a.out, generated, stops, k)
    && b == Ledger(!Ends(a.prompt + a.out, generated, stops, k), a.prompt, a.out + generated[..k], a.due[1..])
  }

  /** The ledger's step in flight and the scheduler's. */
  predicate SameDue(d: Due, f: Flight, drop: bool) { d == if f.live then Timely else if drop then Lost else Late }

  ghost predicate Matches(a: Ledger, s: Sched) {
    && (a.open <==> s.status != Idle) && |a.due| == |s.flights|
    && (a.open ==> s.prompt == a.prompt && s.all == a.prompt + a.out)
    && (a.open ==> forall i :: 0 <= i < |a.due| ==> SameDue(a.due[i], s.flights[i], s.drop))
  }

  /** Outputs are being dropped exactly while one in flight is lost. */
  lemma LostInFlight(a: Ledger, s: Sched, maxLen: nat)
    requires SchedInv(s, maxLen) && s.status != Idle && Matches(a, s)
    ensures Lost in a.due <==> s.drop && s.stale > 0
  {
    if |s.flights| > 0 {
      DrainsInLockstep(s, maxLen);
      assert SameDue(a.due[0], s.flights[0], s.drop);
      if Lost in a.due {
        var i :| 0 <= i < |a.due| && a.due[i] == Lost;
        assert SameDue(a.due[i], s.flights[i], s.drop);
        assert FlightsOk(s.flights);
      }
    }
  }

  lemma LaunchMatches(a: Ledger, s: Sched, s': Sched, f: Flight)
    requires Matches(a, s) && a.open && f.live && s'.status != Idle
    requires s'.flights == s.flights + [f] && s'.drop == s.drop && s'.prompt == s.prompt && s'.all == s.all
    ensures Matches(a.(due := a.due + [Timely]), s')
  {
  }

  lemma PreemptMatches(a: Ledger, s: Sched, maxLen: nat, drop: bool)
    requires SchedInv(s, maxLen) && s.status == Running && Matches(a, s)
    ensures Matches(a.(due := seq(|a.due|, _ => if drop || Lost in a.due then Lost else Late)), Preempt(s, drop))
  {
    LostInFlight(a, s, maxLen);
  }

  lemma OutputMatches(a: Ledger, s: Sched, maxLen: nat, generated: seq<int>, stops: seq<int> -> bool)
    returns (b: Ledger)
    requires SchedInv(s, maxLen) && |s.flights| > 0 && Matches(a, s)
    ensures Records(a, OutputStep(generated, stops), b) && Matches(b, Output(s, generated, stops))
  {
    hide SchedInv;
    if !a.open {
      b := a.(due := a.due[1..]);
    } else {
      DrainsInLockstep(s, maxLen);
      var k := OutputTokens(s, generated, stops);
      assert SameDue(a.due[0], s.flights[0], s.drop);
      hide Output, Kept;
      if a.due[0] == Lost {
        b := a.(due := a.due[1..]);
      } else {
        b := Ledger(!Ends(s.all, generated, stops, k), a.prompt, a.out + generated[..k], a.due[1..]);
        assert a.prompt + (a.out + generated[..k]) == s.all + generated[..k];
        assert Delivers(a, generated, stops, k, b);
      }
    }
  }

  /** Every step of the system has its entry in the ledger. */
  lemma StepMatches(a: Ledger, sys: System, step: Step, maxLen: nat) returns (b: Ledger)
    requires Inv(sys, maxLen) && Matches(a, sys.s) && Enabled(sys, maxLen, step)
    requires step.DeliverStep? ==> CanDeliver(sys.workers[step.w], sys.inboxes[step.w][0])
    ensures Records(a, step, b) && Matches(b, Apply(sys, step).s)
  {
    hide SchedInv, WorkerInv, Deliver, CanDeliver;
    var s := sys.s;
    b := a;
    match step
    case Add(p) =>
      b := Ledger(true, p, [], []);
      assert p + [] == p;
    case AdmitStep(hit, count, pad) =>
      b := a.(due := a.due + [Timely]);
      var s' := Admit(s, hit, count, pad).0;
      LaunchMatches(a, s, s', s'.flights[|s.flights|]);
    case ScheduleStep(n) =>
      b := a.(due := a.due + [Timely]);
      var s' := Schedule(s, n).0;
      LaunchMatches(a, s, s', s'.flights[|s.flights|]);
    case PreemptStep(drop) =>
      b := a.(due := seq(|a.due|, _ => if drop || Lost in a.due then Lost else Late));
      PreemptMatches(a, s, maxLen, drop);
    case Abort => b := a.(open := false);
    case OutputStep(generated, stops) =>
      b := OutputMatches(a, s, maxLen, generated, stops);
    case _ =>
  }

  /** The books of a run: one ledger before each step, each following from the last. */
  ghost predicate Books(steps: seq<Step>, books: seq<Ledger>) {
    && |books| == |steps| + 1 && books[0] == Ledger(false, [], [], [])
    && forall i, j :: 0 <= i < |steps| && j == i + 1 ==> Records(books[i], steps[i], books[j])
  }

  lemma FirstBook(s: Sched)
    requires s.status == Idle && s.flights == []
    ensures Matches(Ledger(false, [], [], []), s)
  {
  }

  /** In every run the request's tokens are its prompt followed by exactly the outputs delivered to it, in order, each
      up to its stop; nothing that is not lost is missing and nothing is delivered twice. */
  lemma {:induction false} TokensAreDelivered(states: seq<System>, steps: seq<Step>, maxLen: nat)
    returns (books: seq<Ledger>)
    requires Trace(states, steps, maxLen)
    ensures Books(steps, books)
    ensures forall i :: 0 <= i < |states| ==> Matches(books[i], states[i].s)
    decreases |steps|
  {
    hide Records, Matches, Takes;
    if |steps| == 0 {
      FirstBook(states[0].s);
      books := [Ledger(false, [], [], [])];
    } else {
      var n := |steps| - 1;
      books := TokensAreDelivered(states[..n + 1], steps[..n], maxLen);
      var next := LastEntry(states, steps, maxLen, n, books[n]);
      books := books + [next];
    }
  }

  lemma LastEntry(states: seq<System>, steps: seq<Step>, maxLen: nat, n: nat, a: Ledger) returns (b: Ledger)
    requires Trace(states, steps, maxLen) && n < |steps| && Matches(a, states[n].s)
    ensures Records(a, steps[n], b) && Matches(b, states[n + 1].s)
  {
    hide Matches, Records, Apply, Inv, Enabled;
    TraceInv(states, steps, maxLen, n);
    assert Takes(states[n], steps[n], states[n + 1], maxLen);
    b := StepMatches(a, states[n], steps[n], maxLen);
  }
}
