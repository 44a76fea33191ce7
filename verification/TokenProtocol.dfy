/** How the scheduler keeps the token lists of the pipeline's non-last workers up to date: a step system for one
    request id, with steps in flight, speculative drafts, preemption, and one message queue per worker. */
module TokenProtocol {
  import opened Basics

  /** A scheduled step whose output has not come back. end is the position after its last real token; samples says
      whether that was the request's last token; live is cleared when a preemption makes the step stale. */
  datatype Flight = Flight(n: nat, drafts: seq<int>, end: nat, samples: bool, live: bool)

  /** Idle: there is no such request. */
  datatype Status = Idle | Waiting | Running | Preempted

  datatype Sched = Sched(status: Status, prompt: seq<int>, all: seq<int>, computed: int, spec: seq<int>, sent: nat,
                         flights: seq<Flight>, inFlight: int, stale: int, drop: bool)

  /** What a worker hears of the request in one engine step. */
  datatype Msg =
    | New(prompt: seq<int>)
    | Cached(slice: seq<int>, computed: int, scheduled: nat, drafts: seq<int>, resumed: bool)
    | Absent
    | Gone

  /** A worker's record: its token list, and its row of the persistent batch with the count of settled tokens. */
  datatype Worker = Worker(known: bool, tokens: seq<int>, inBatch: bool, row: seq<int>, settled: nat)

  datatype System = System(s: Sched, workers: seq<Worker>, inboxes: seq<seq<Msg>>)

  // ----- the scheduler's operations

  /** How far the workers have been sent this request's tokens. */
  function SentUpTo(s: Sched): nat { Max(s.sent, |s.prompt|) }

  /** Every token the workers have not seen, up to the current non-draft token. */
  function CachedMsg(s: Sched, computed: int, n: nat, drafts: seq<int>, resumed: bool): Msg {
    Cached(Slice(s.all, SentUpTo(s), computed + n - |drafts|), computed, n, drafts, resumed)
  }

  /** The send tracker after such a message. */
  function Tracked(s: Sched, computed: int, n: nat, drafts: seq<int>): nat {
    Max(SentUpTo(s), computed + n - |drafts|)
  }

  /** The step is in flight and its tokens count as computed. */
  function Launch(s: Sched, computed: nat, n: nat, drafts: seq<int>): Sched
    requires |drafts| <= n
  {
    var end := computed + n - |drafts|;
    s.(status := Running, computed := computed + n, inFlight := s.inFlight + n,
       flights := s.flights + [Flight(n, drafts, end, end >= |s.all|, true)])
  }

  /** The drafts scheduled with n tokens: those past the real ones. */
  function Drafts(s: Sched, n: nat): seq<int> {
    var k := n + s.computed - |s.all|;
    if |s.spec| > 0 && k > 0 then s.spec[..Min(k, |s.spec|)] else []
  }

  /** The guard: a running request whose real tokens are all computed waits for its output. */
  predicate CanSchedule(s: Sched, n: nat) {
    && s.status == Running && 0 <= s.computed < |s.all|
    && 1 <= n <= |s.all| + |s.spec| - s.computed
  }

  function Schedule(s: Sched, n: nat): (Sched, Msg)
    requires CanSchedule(s, n)
  {
    var drafts := Drafts(s, n);
    (Launch(s, s.computed, n, drafts).(spec := [], sent := Tracked(s, s.computed, n, drafts)),
     CachedMsg(s, s.computed, n, drafts, false))
  }

  /** A waiting request starts at a prefix-cache hit; a lone last token may be padded with placeholder drafts.
      One with deliverable stale output in flight is not resumed. */
  predicate CanAdmit(s: Sched, hit: nat, count: nat, pad: nat) {
    && (s.status == Waiting || s.status == Preempted) && !(s.stale > 0 && !s.drop)
    && hit < |s.all| && 1 <= count <= |s.all| - hit && (pad > 0 ==> |s.all| - hit == 1)
  }

  function Placeholders(pad: nat): (d: seq<int>)
    ensures |d| == pad
  {
    seq(pad, _ => -1)
  }

  function Admit(s: Sched, hit: nat, count: nat, pad: nat): (Sched, Msg)
    requires CanAdmit(s, hit, count, pad)
  {
    var drafts := Placeholders(pad);
    var next := Launch(s, hit, count + pad, drafts);
    if s.status == Waiting then (next, New(s.prompt))
    else (next.(sent := Tracked(s, hit, count + pad, drafts)), CachedMsg(s, hit, count + pad, drafts, true))
  }

  /** Preemption makes everything in flight stale; dropped stale output stays dropped. */
  function Preempt(s: Sched, drop: bool): Sched {
    s.(status := Preempted, computed := 0, spec := [], drop := drop || (s.drop && s.stale > 0), stale := s.inFlight,
       flights := seq(|s.flights|, i requires 0 <= i < |s.flights| => s.flights[i].(live := false)))
  }

  /** Tokens are appended one by one until one stops the request. */
  function Append(all: seq<int>, generated: seq<int>, stops: seq<int> -> bool): (r: (seq<int>, bool))
    ensures all <= r.0 && |r.0| <= |all| + |generated|
    ensures !r.1 ==> r.0 == all + generated
    decreases |generated|
  {
    if |generated| == 0 then (all, false)
    else
      var more := all + [generated[0]];
      if stops(more) then (more, true) else Append(more, generated[1..], stops)
  }

  /** The request is freed and its tracker entry dropped; steps in flight run on. */
  function Free(s: Sched): Sched { s.(status := Idle, sent := 0) }

  /** A sampling step yields the accepted drafts and one more token, any other step nothing. */
  predicate Fits(f: Flight, generated: seq<int>) {
    if f.samples then 1 <= |generated| <= |f.drafts| + 1 else generated == []
  }

  /** The oldest step's output comes back. */
  function Output(s: Sched, generated: seq<int>, stops: seq<int> -> bool): Sched
    requires |s.flights| > 0
  {
    var f, s0 := s.flights[0], s.(flights := s.flights[1..]);
    if s.status == Idle then s0
    else
      var isStale := s.stale > 0;
      var s1 := s0.(inFlight := s.inFlight - f.n, stale := if isStale then s.stale - f.n else s.stale);
      if isStale && s.drop then s1
      else
        var rejected := |f.drafts| - Max(|generated| - 1, 0);
        var rollBack := |f.drafts| > 0 && |generated| > 0 && !isStale && s1.computed > 0;
        var s2 := if rollBack then s1.(computed := s1.computed - rejected) else s1;
        var (all, stopped) := Append(s2.all, generated, stops);
        if stopped then Free(s2.(all := all)) else s2.(all := all)
  }

  // ----- the worker

  /** Tokens of a message that the worker already has. */
  function Dropped(have: nat, m: Msg): nat
    requires m.Cached?
  {
    Min(|m.slice|, Max(0, have - (m.computed + m.scheduled - |m.drafts| - |m.slice|)))
  }

  function Fresh(have: nat, m: Msg): seq<int>
    requires m.Cached?
  {
    if m.slice == [] then [] else m.slice[Dropped(have, m)..]
  }

  function Overwrite(row: seq<int>, at: nat, tokens: seq<int>): (r: seq<int>)
    requires at + |tokens| <= |row|
    ensures |r| == |row|
  {
    row[..at] + tokens + row[at + |tokens|..]
  }

  /** The message finds the worker in a state it can be applied to. */
  predicate CanDeliver(w: Worker, m: Msg) {
    match m
    case New(p) => |p| <= |w.row|
    case Cached(_, computed, _, _, resumed) =>
      var got := Fresh(|w.tokens|, m);
      w.known && if w.inBatch && !resumed then w.settled + |got| <= |w.row| else |w.tokens + got| <= |w.row|
    case _ => true
  }

  function Deliver(w: Worker, m: Msg): Worker
    requires CanDeliver(w, m)
  {
    match m
    case New(p) => Worker(true, p, true, Overwrite(w.row, 0, p), |p|)
    case Cached(_, computed, _, _, resumed) =>
      var got := Fresh(|w.tokens|, m);
      var tokens := w.tokens + got;
      if !w.inBatch || resumed then Worker(true, tokens, true, Overwrite(w.row, 0, tokens), |tokens|)
      else if |got| > 0 then Worker(true, tokens, true, Overwrite(w.row, w.settled, got), w.settled + |got|)
      else w.(settled := Max(w.settled, computed))
    case Absent => w.(inBatch := false)
    case Gone => w.(known := false, tokens := [], inBatch := false)
  }

  // ----- the step system

  datatype Step =
    | Add(prompt: seq<int>)
    | AdmitStep(hit: nat, count: nat, pad: nat)
    | ScheduleStep(n: nat)
    | SkipStep
    | Propose(drafts: seq<int>)
    | OutputStep(generated: seq<int>, stops: seq<int> -> bool)
    | PreemptStep(drop: bool)
    | Abort
    | DeliverStep(w: nat)

  function Send(sys: System, s: Sched, m: Msg): System {
    System(s, sys.workers, seq(|sys.inboxes|, w requires 0 <= w < |sys.inboxes| => sys.inboxes[w] + [m]))
  }

  /** maxLen is the model's length limit: reaching it stops a request. */
  ghost predicate Enabled(sys: System, maxLen: nat, step: Step) {
    var s := sys.s;
    match step
    case Add(p) => s.status == Idle && s.flights == [] && 1 <= |p| < maxLen
    case AdmitStep(hit, count, pad) => CanAdmit(s, hit, count, pad)
    case ScheduleStep(n) => CanSchedule(s, n)
    case SkipStep => true
    case Propose(_) => s.status != Idle
    case OutputStep(generated, stops) =>
      |s.flights| > 0 && Fits(s.flights[0], generated) && forall all: seq<int> :: |all| >= maxLen ==> stops(all)
    case PreemptStep(_) => s.status == Running
    case Abort => s.status != Idle
    case DeliverStep(w) => w < |sys.workers| == |sys.inboxes| && |sys.inboxes[w]| > 0
  }

  function Apply(sys: System, step: Step): System
    requires match step
             case AdmitStep(hit, count, pad) => CanAdmit(sys.s, hit, count, pad)
             case ScheduleStep(n) => CanSchedule(sys.s, n)
             case OutputStep(_, _) => |sys.s.flights| > 0
             case DeliverStep(w) =>
               && w < |sys.workers| == |sys.inboxes| && |sys.inboxes[w]| > 0
               && CanDeliver(sys.workers[w], sys.inboxes[w][0])
             case _ => true
  {
    var s := sys.s;
    match step
    case Add(p) => sys.(s := Sched(Waiting, p, p, 0, [], s.sent, [], 0, 0, false))
    case AdmitStep(hit, count, pad) => var (s', m) := Admit(s, hit, count, pad); Send(sys, s', m)
    case ScheduleStep(n) => var (s', m) := Schedule(s, n); Send(sys, s', m)
    case SkipStep => Send(sys, s, Absent)
    case Propose(drafts) => sys.(s := s.(spec := drafts))
    case OutputStep(generated, stops) =>
      var s' := Output(s, generated, stops);
      if s.status != Idle && s'.status == Idle then Send(sys, s', Gone) else sys.(s := s')
    case PreemptStep(drop) => sys.(s := Preempt(s, drop))
    case Abort => Send(sys, Free(s), Gone)
    case DeliverStep(w) =>
      sys.(workers := sys.workers[w := Deliver(sys.workers[w], sys.inboxes[w][0])],
           inboxes := sys.inboxes[w := sys.inboxes[w][1..]])
  }
}
