/** The scheduler's request record and send tracker, and the worker's record, updated in place. */
module TokenObjects {
  import opened Basics
  import opened TokenProtocol

  /** The dictionary of how far each request's tokens were sent. */
  class SentTracker {
    var sent: map<string, nat>

    constructor ()
      ensures sent == map[]
    {
      sent := map[];
    }

    ghost function Of(id: string): nat
      reads this
    {
      if id in sent then sent[id] else 0
    }

    /** Everything from the tracked position up to the current non-draft token. */
    method Send(id: string, promptLen: nat, all: seq<int>, end: nat) returns (tokens: seq<int>)
      modifies this
      ensures var from: nat := Max(old(Of(id)), promptLen);
              tokens == Slice(all, from, end) && sent == old(sent)[id := Max(from, end)]
    {
      var had := if id in sent then sent[id] else 0;
      var from: nat := Max(had, promptLen);
      tokens := Slice(all, from, end);
      sent := sent[id := Max(from, end)];
    }

    method Pop(id: string)
      modifies this
      ensures sent == old(sent) - {id}
    {
      sent := sent - {id};
    }
  }

  class Request {
    const id: string
    const prompt: seq<int>
    var status: Status
    var all: seq<int>
    var computed: int
    var spec: seq<int>
    var flights: seq<Flight>
    var inFlight: int
    var stale: int
    var drop: bool

    constructor (id: string, prompt: seq<int>)
      ensures this.id == id && this.prompt == prompt && status == Waiting && all == prompt && computed == 0
      ensures spec == []
      ensures flights == [] && inFlight == 0 && stale == 0 && !drop
    {
      this.id, this.prompt := id, prompt;
      status, all, computed, spec, flights, inFlight, stale, drop := Waiting, prompt, 0, [], [], 0, 0, false;
    }

    ghost function State(t: SentTracker): Sched
      reads this, t
    {
      Sched(status, prompt, all, computed, spec, t.Of(id), flights, inFlight, stale, drop)
    }

    method LaunchStep(ghost t: SentTracker, at: nat, n: nat, drafts: seq<int>)
      requires |drafts| <= n
      modifies this
      ensures State(t) == Launch(old(State(t)), at, n, drafts)
    {
      var end := at + n - |drafts|;
      flights := flights + [Flight(n, drafts, end, end >= |all|, true)];
      status, computed, inFlight := Running, at + n, inFlight + n;
    }

    /** Scheduling a running request: the guard, the drafts past the real tokens, the unsent tokens, the advance. */
    method ScheduleRunning(t: SentTracker, n: nat) returns (scheduled: bool, m: Msg)
      requires status == Running && 0 <= computed && 1 <= n && (computed < |all| ==> n <= |all| + |spec| - computed)
      modifies this, t
      ensures scheduled == old(CanSchedule(State(t), n))
      ensures scheduled ==> (State(t), m) == Schedule(old(State(t)), n)
      ensures !scheduled ==> State(t) == old(State(t)) && m == Absent
      ensures forall other :: other != id ==> t.Of(other) == old(t.Of(other))
    {
      hide Slice;
      if |all| <= computed {
        return false, Absent;
      }
      ghost var before := State(t);
      var k := n + computed - |all|;
      var drafts := [];
      assert spec[..|spec|] == spec;
      if |spec| > 0 {
        if k > 0 { drafts := if |spec| > k then spec[..k] else spec; }
        spec := [];
      }
      assert drafts == Drafts(before, n);
      var at: nat := computed;
      var end := at + n - |drafts|;
      var tokens := t.Send(id, |prompt|, all, end);
      m := Cached(tokens, at, n, drafts, false);
      LaunchStep(t, at, n, drafts);
      scheduled := true;
    }

    /** Starting or resuming from the waiting queue at a prefix-cache hit. */
    method AdmitWaiting(t: SentTracker, hit: nat, count: nat, pad: nat) returns (m: Msg)
      requires CanAdmit(State(t), hit, count, pad)
      modifies this, t
      ensures (State(t), m) == Admit(old(State(t)), hit, count, pad)
      ensures forall other :: other != id ==> t.Of(other) == old(t.Of(other))
    {
      hide Slice;
      var drafts := seq(pad, _ => -1);
      assert drafts == Placeholders(pad);
      if status == Waiting {
        m := New(prompt);
      } else {
        var tokens := t.Send(id, |prompt|, all, hit + count);
        m := Cached(tokens, hit, count + pad, drafts, true);
      }
      LaunchStep(t, hit, count + pad, drafts);
    }

    method PreemptRequest(ghost t: SentTracker, dropStale: bool)
      modifies this
      ensures State(t) == Preempt(old(State(t)), dropStale)
    {
      status, computed := Preempted, 0;
      spec := [];
      drop := dropStale || (drop && stale > 0);
      stale := inFlight;
      flights := seq(|flights|, i requires 0 <= i < |flights| reads this => flights[i].(live := false));
    }

    method AppendTokens(generated: seq<int>, stops: seq<int> -> bool) returns (stopped: bool)
      modifies this`all
      ensures (all, stopped) == Append(old(all), generated, stops)
    {
      stopped := false;
      var i := 0;
      while i < |generated| && !stopped
        invariant i <= |generated|
        invariant if stopped then (all, true) == Append(old(all), generated, stops)
                  else Append(all, generated[i..], stops) == Append(old(all), generated, stops)
      {
        all := all + [generated[i]];
        stopped := stops(all);
        i := i + 1;
      }
    }

    /** The oldest step's output: stale shares drain first, rejections roll back, tokens are appended. */
    method UpdateFromOutput(t: SentTracker, generated: seq<int>, stops: seq<int> -> bool)
      requires |flights| > 0
      modifies this, t
      ensures State(t) == Output(old(State(t)), generated, stops)
      ensures forall other :: other != id ==> t.Of(other) == old(t.Of(other))
    {
      hide Append;
      var f := flights[0];
      flights := flights[1..];
      if status == Idle { return; }
      inFlight := inFlight - f.n;
      var isStale := stale > 0;
      if isStale { stale := stale - f.n; }
      if isStale && drop { return; }
      if |f.drafts| > 0 && |generated| > 0 && !isStale && computed > 0 {
        var accepted := if |generated| > 1 then |generated| - 1 else 0;
        computed := computed - (|f.drafts| - accepted);
      }
      var stopped := AppendTokens(generated, stops);
      if stopped {
        status := Idle;
        t.Pop(id);
      }
    }
  }

  /** The worker's cached request state and its row of token_ids_cpu. */
  class WorkerRecord {
    var known: bool
    var tokens: seq<int>
    var inBatch: bool
    const row: array<int>
    var settled: nat

    constructor (maxLen: nat)
      ensures fresh(row) && row.Length == maxLen && !known && !inBatch && tokens == []
    {
      known, tokens, inBatch, settled := false, [], false, 0;
      row := new int[maxLen];
    }

    ghost function Record(): Worker
      reads this, row
    {
      Worker(known, tokens, inBatch, row[..], settled)
    }

    /** token_ids_cpu[req_index, at:at + len(new)] = new */
    method Write(at: nat, got: seq<int>)
      requires at + |got| <= row.Length
      modifies row
      ensures row[..] == Overwrite(old(row[..]), at, got)
    {
      for j := 0 to |got|
        invariant forall i :: 0 <= i < row.Length ==> row[i] == if at <= i < at + j then got[i - at] else old(row[i])
      {
        row[at + j] := got[j];
      }
    }

    /** One engine step's news of the request. */
    method Update(m: Msg)
      requires CanDeliver(Record(), m)
      modifies this, row
      ensures Record() == Deliver(old(Record()), m)
    {
      match m
      case New(p) =>
        known, tokens, inBatch := true, p, true;
        Write(0, p);
        settled := |p|;
      case Cached(slice, at, scheduled, drafts, resumed) =>
        var got := slice;
        if |got| > 0 {
          var end := at + scheduled - |drafts|;
          var already := Max(0, |tokens| - (end - |got|));
          got := got[Min(|got|, already)..];
        }
        tokens := tokens + got;
        if !inBatch || resumed {
          Write(0, tokens);
          inBatch, settled := true, |tokens|;
        } else if |got| > 0 {
          Write(settled, got);
          settled := settled + |got|;
        } else {
          settled := Max(settled, at);
        }
      case Absent =>
        inBatch := false;
      case Gone =>
        known, tokens, inBatch := false, [], false;
    }
  }
}
