/** The two run-to-completion engines, `sjfScheduling` and
    `priorityScheduling`. They share one loop: filter the processes that have
    arrived, pick the best by a key with a strict comparison (so the first
    match in `remaining` order wins ties), run it whole, splice it out; when
    nothing has arrived, jump the clock to the earliest remaining arrival.
    SJF uses the burst time as key (smaller wins); the priority engine uses
    the priority key (larger or smaller wins, per direction). Results come out
    in completion order. */
module NonPreemptiveEngine {
  import opened SchedTypes
  import opened Sorting
  import opened Gantt
  import opened Selection

  function Bursts(procs: seq<Process>): (r: seq<int>)
    ensures |r| == |procs|
    ensures forall i :: 0 <= i < |procs| ==> r[i] == procs[i].burst
  {
    seq(|procs|, i requires 0 <= i < |procs| => procs[i].burst)
  }

  /** Removing the chosen process from the remaining list: drop the first `x`. */
  function Splice(s: seq<nat>, x: nat): (r: seq<nat>)
    requires x in s
    ensures |r| == |s| - 1
    ensures forall j :: j in r ==> j in s
    ensures forall j :: j in s && j != x ==> j in r
    ensures StrictlyIncreasing(s) ==> StrictlyIncreasing(r) && x !in r
  {
    var k := IndexOf(s, x);
    assert s == s[..k] + [x] + s[k + 1..];
    s[..k] + s[k + 1..]
  }

  /** Decision k of a run-to-completion schedule, where `order` lists the
      processes in the order they were run and `recs` their records: the
      process `order[k]` had not run yet; it starts at the time the CPU became
      free if some pending process had arrived by then, and otherwise at the
      earliest pending arrival; it has arrived by its start; it runs whole;
      and no other pending process that has arrived by then has a better key,
      nor an equal key and a smaller input position. */
  predicate Decision(procs: seq<Process>, key: seq<int>, maximize: bool, order: seq<nat>, recs: seq<ProcResult>, k: nat)
    requires |key| == |procs| && InBounds(order, |procs|)
    requires k < |order| && k < |recs|
  {
    var i := order[k];
    var start := recs[k].start;
    var prev := FreeAt(recs, k, 0);
    && i !in order[..k]
    && recs[k] == RanWhole(procs[i], start)
    && procs[i].arrival <= start
    && (if exists j :: 0 <= j < |procs| && j !in order[..k] && procs[j].arrival <= prev
        then start == prev
        else forall j :: 0 <= j < |procs| && j !in order[..k] ==> start <= procs[j].arrival)
    && forall j :: 0 <= j < |procs| && j !in order[..k] && j != i && procs[j].arrival <= start ==>
         !Beats(maximize, key[j], key[i]) && (key[j] == key[i] ==> i < j)
  }

  /** A complete run-to-completion schedule: every process is run exactly
      once, each by a valid decision. */
  predicate NpSchedule(procs: seq<Process>, key: seq<int>, maximize: bool, order: seq<nat>, recs: seq<ProcResult>)
    requires |key| == |procs|
  {
    && IsPermutation(order, |procs|)
    && |recs| == |procs|
    && forall k :: 0 <= k < |procs| ==> Decision(procs, key, maximize, order, recs, k)
  }

  /** Extending a schedule does not change its earlier decisions. */
  lemma DecisionStable(procs: seq<Process>, key: seq<int>, maximize: bool, order: seq<nat>, recs: seq<ProcResult>,
                       k: nat, i: nat, rec: ProcResult)
    requires |key| == |procs| && InBounds(order, |procs|) && i < |procs|
    requires k < |order| && k < |recs|
    requires Decision(procs, key, maximize, order, recs, k)
    ensures InBounds(order + [i], |procs|)
    ensures Decision(procs, key, maximize, order + [i], recs + [rec], k)
  {
    assert (order + [i])[..k] == order[..k];
    assert (order + [i])[k] == order[k];
    assert (recs + [rec])[k] == recs[k];
    assert FreeAt(recs + [rec], k, 0) == FreeAt(recs, k, 0);
  }

  /** The state of the loop after the decisions `done` with records `recs`:
      `remaining` holds, in input order, exactly the processes not yet run;
      every decision so far is valid; and `clock` is the time the CPU became
      free, or a jump past it to no later than any pending arrival when
      nothing pending had arrived by then. */
  predicate Partial(procs: seq<Process>, key: seq<int>, maximize: bool, done: seq<nat>, recs: seq<ProcResult>,
                    remaining: seq<nat>, clock: int)
    requires |key| == |procs|
  {
    && InBounds(remaining, |procs|) && StrictlyIncreasing(remaining)
    && InBounds(done, |procs|) && |recs| == |done|
    && (forall j :: 0 <= j < |procs| ==> (j in remaining <==> j !in done))
    && (forall k :: 0 <= k < |done| ==> Decision(procs, key, maximize, done, recs, k))
    && (|| clock == FreeAt(recs, |recs|, 0)
        || ((forall j :: j in remaining ==> procs[j].arrival > FreeAt(recs, |recs|, 0))
            && (forall j :: j in remaining ==> clock <= procs[j].arrival)))
  }

  /** Before the first decision nothing has run and the clock is 0. */
  lemma PartialInit(procs: seq<Process>, key: seq<int>, maximize: bool)
    requires |key| == |procs|
    ensures Partial(procs, key, maximize, [], [], Range(0, |procs|), 0)
  {
    var remaining := Range(0, |procs|);
    assert forall j :: 0 <= j < |procs| ==> remaining[j] == j && j in remaining;
  }

  /** Picking the Reduce winner among the arrived processes and running it
      whole from `clock` is a valid decision and keeps the loop state. */
  lemma PartialStep(procs: seq<Process>, key: seq<int>, maximize: bool, done: seq<nat>, recs: seq<ProcResult>,
                    remaining: seq<nat>, clock: int)
    requires |key| == |procs|
    requires Partial(procs, key, maximize, done, recs, remaining, clock)
    requires |Arrived(procs, remaining, clock)| > 0
    ensures var available := Arrived(procs, remaining, clock);
      var w := available[Reduce(available, key, maximize)];
      Partial(procs, key, maximize, done + [w], recs + [RanWhole(procs[w], clock)],
              Splice(remaining, w), clock + procs[w].burst)
  {
    var available := Arrived(procs, remaining, clock);
    var w := available[Reduce(available, key, maximize)];
    var rec := RanWhole(procs[w], clock);
    var rs := recs + [rec];
    StepDecisions(procs, key, maximize, done, recs, remaining, clock);
    assert w in remaining;
    assert FreeAt(rs, |rs|, 0) == clock + procs[w].burst;
  }

  /** The decisions after a step: the earlier ones are unchanged and the new
      one is valid. */
  lemma StepDecisions(procs: seq<Process>, key: seq<int>, maximize: bool, done: seq<nat>, recs: seq<ProcResult>,
                      remaining: seq<nat>, clock: int)
    requires |key| == |procs|
    requires Partial(procs, key, maximize, done, recs, remaining, clock)
    requires |Arrived(procs, remaining, clock)| > 0
    ensures var available := Arrived(procs, remaining, clock);
      var w := available[Reduce(available, key, maximize)];
      forall m :: 0 <= m <= |done| ==> Decision(procs, key, maximize, done + [w], recs + [RanWhole(procs[w], clock)], m)
  {
    var available := Arrived(procs, remaining, clock);
    var w := available[Reduce(available, key, maximize)];
    var rec := RanWhole(procs[w], clock);
    StepDecision(procs, key, maximize, done, recs, remaining, clock);
    forall m | 0 <= m < |done| ensures Decision(procs, key, maximize, done + [w], recs + [rec], m) {
      DecisionStable(procs, key, maximize, done, recs, m, w, rec);
    }
  }

  /** The new decision: the winner has not run, starts at `clock`, and no
      pending process that has arrived by then beats it or ties it from a
      smaller input position. */
  lemma StepDecision(procs: seq<Process>, key: seq<int>, maximize: bool, done: seq<nat>, recs: seq<ProcResult>,
                     remaining: seq<nat>, clock: int)
    requires |key| == |procs|
    requires Partial(procs, key, maximize, done, recs, remaining, clock)
    requires |Arrived(procs, remaining, clock)| > 0
    ensures var available := Arrived(procs, remaining, clock);
      var w := available[Reduce(available, key, maximize)];
      Decision(procs, key, maximize, done + [w], recs + [RanWhole(procs[w], clock)], |done|)
  {
    var available := Arrived(procs, remaining, clock);
    var w := available[Reduce(available, key, maximize)];
    var rec := RanWhole(procs[w], clock);
    var order := done + [w];
    var rs := recs + [rec];
    var k := |done|;
    assert order[..k] == done;
    assert FreeAt(rs, k, 0) == FreeAt(recs, |recs|, 0);
    assert w in remaining;
    forall j | 0 <= j < |procs| && j !in done && j != w && procs[j].arrival <= clock
      ensures !Beats(maximize, key[j], key[w]) && (key[j] == key[w] ==> w < j)
    {
      assert j in available;
      ReduceWinner(available, key, maximize, j);
    }
  }

  /** With nothing arrived, jumping to the earliest remaining arrival keeps
      the loop state and makes some process available. */
  lemma PartialJump(procs: seq<Process>, key: seq<int>, maximize: bool, done: seq<nat>, recs: seq<ProcResult>,
                    remaining: seq<nat>, clock: int)
    requires |key| == |procs|
    requires Partial(procs, key, maximize, done, recs, remaining, clock)
    requires |remaining| > 0 && |Arrived(procs, remaining, clock)| == 0
    ensures Partial(procs, key, maximize, done, recs, remaining, MinArrival(procs, remaining))
    ensures |Arrived(procs, remaining, MinArrival(procs, remaining))| > 0
  {
    var t := MinArrival(procs, remaining);
    var k :| 0 <= k < |remaining| && procs[remaining[k]].arrival == t;
    assert remaining[k] in Arrived(procs, remaining, t);
    forall j | j in remaining ensures procs[j].arrival > FreeAt(recs, |recs|, 0) && t <= procs[j].arrival {
      assert j !in Arrived(procs, remaining, clock);
    }
  }

  /** When nothing remains, the decisions form a complete schedule. */
  lemma PartialComplete(procs: seq<Process>, key: seq<int>, maximize: bool, done: seq<nat>, recs: seq<ProcResult>, clock: int)
    requires |key| == |procs|
    requires Partial(procs, key, maximize, done, recs, [], clock)
    ensures NpSchedule(procs, key, maximize, done, recs)
  {
    forall k, m | 0 <= k < m < |done| ensures done[k] != done[m] {
      assert Decision(procs, key, maximize, done, recs, m);
      assert done[k] in done[..m];
    }
    CoveringDistinctIsPermutation(done, |procs|);
  }

  /** The shared loop of `sjfScheduling` (lib/scheduling-algorithms.ts:37-80)
      and `priorityScheduling` (:233-291). */
  method RunToCompletion(procs: seq<Process>, key: seq<int>, maximize: bool) returns (r: Schedule)
    requires ValidInput(procs) && |key| == |procs|
    ensures exists order :: NpSchedule(procs, key, maximize, order, r.processes)
    ensures r.gantt == Timeline(r.processes)
    ensures WellFormed(r.gantt)
    ensures forall k :: 0 <= k < |r.processes| ==> MetricsHold(r.processes[k]) && r.processes[k].waiting == r.processes[k].response
    ensures DistinctNames(procs) ==> forall i :: 0 <= i < |procs| ==> Busy(r.gantt, procs[i].name) == procs[i].burst
  {
    var gantt: seq<Segment> := [];
    var completed: seq<ProcResult> := [];
    var remaining := Range(0, |procs|);
    var clock := 0;
    ghost var done: seq<nat> := [];
    PartialInit(procs, key, maximize);
    while |remaining| > 0
      invariant Partial(procs, key, maximize, done, completed, remaining, clock)
      invariant gantt == Timeline(completed)
      decreases |remaining|, if |Arrived(procs, remaining, clock)| > 0 then 0 else 1
    {
      var available := Arrived(procs, remaining, clock);
      if |available| == 0 {
        PartialJump(procs, key, maximize, done, completed, remaining, clock);
        clock := MinArrival(procs, remaining);
        continue;
      }
      var w;
      w, gantt, completed, done := RunOne(procs, key, maximize, remaining, clock, gantt, completed, done);
      clock := clock + procs[w].burst;
      remaining := Splice(remaining, w);
    }
    r := Schedule(completed, gantt);
    NpFinished(procs, key, maximize, done, completed, clock);
  }

  /** One pass of the loop with some process arrived: the Reduce winner runs
      whole from `clock`, its record and bar are appended, and the loop state
      is kept. */
  method RunOne(procs: seq<Process>, key: seq<int>, maximize: bool, remaining: seq<nat>, clock: int,
                gantt: seq<Segment>, completed: seq<ProcResult>, ghost done: seq<nat>)
    returns (w: nat, gantt2: seq<Segment>, completed2: seq<ProcResult>, ghost done2: seq<nat>)
    requires |key| == |procs|
    requires Partial(procs, key, maximize, done, completed, remaining, clock)
    requires gantt == Timeline(completed)
    requires |Arrived(procs, remaining, clock)| > 0
    ensures var available := Arrived(procs, remaining, clock);
      w == available[Reduce(available, key, maximize)]
    ensures w in remaining
    ensures completed2 == completed + [RanWhole(procs[w], clock)]
    ensures gantt2 == gantt + [Segment(procs[w].name, clock, clock + procs[w].burst)]
    ensures gantt2 == Timeline(completed2)
    ensures done2 == done + [w]
    ensures Partial(procs, key, maximize, done2, completed2, Splice(remaining, w), clock + procs[w].burst)
  {
    var available := Arrived(procs, remaining, clock);
    w := available[Reduce(available, key, maximize)];
    var p := procs[w];
    var start := clock;
    var completion := start + p.burst;
    gantt2 := gantt + [Segment(p.name, start, completion)];
    var rec := ProcResult(p, start, completion, completion - p.arrival, start - p.arrival, start - p.arrival);
    PartialStep(procs, key, maximize, done, completed, remaining, clock);
    assert rec == RanWhole(p, start);
    TimelineAppend(completed, rec);
    completed2 := completed + [rec];
    done2 := done + [w];
  }

  /** After the loop: the decisions form a complete schedule, with the
      properties RunToCompletion promises. */
  lemma NpFinished(procs: seq<Process>, key: seq<int>, maximize: bool, done: seq<nat>, completed: seq<ProcResult>, clock: int)
    requires ValidInput(procs) && |key| == |procs|
    requires Partial(procs, key, maximize, done, completed, [], clock)
    ensures NpSchedule(procs, key, maximize, done, completed)
    ensures WellFormed(Timeline(completed))
    ensures forall k :: 0 <= k < |completed| ==> MetricsHold(completed[k]) && completed[k].waiting == completed[k].response
    ensures DistinctNames(procs) ==> forall i :: 0 <= i < |procs| ==> Busy(Timeline(completed), procs[i].name) == procs[i].burst
  {
    PartialComplete(procs, key, maximize, done, completed, clock);
    NpScheduleProperties(procs, key, maximize, done, completed);
  }

  /** A run-to-completion schedule's chart is ordered and non-overlapping,
      its metrics agree (waiting equals response), and with distinct names
      each process is shown busy for exactly its burst time. */
  lemma NpScheduleProperties(procs: seq<Process>, key: seq<int>, maximize: bool, order: seq<nat>, recs: seq<ProcResult>)
    requires ValidInput(procs) && |key| == |procs|
    requires NpSchedule(procs, key, maximize, order, recs)
    ensures WellFormed(Timeline(recs))
    ensures forall k :: 0 <= k < |recs| ==> MetricsHold(recs[k]) && recs[k].waiting == recs[k].response
    ensures DistinctNames(procs) ==> forall i :: 0 <= i < |procs| ==> Busy(Timeline(recs), procs[i].name) == procs[i].burst
  {
    var g := Timeline(recs);
    forall k | 0 <= k < |g| ensures g[k].start < g[k].end {
      assert Decision(procs, key, maximize, order, recs, k);
    }
    forall k | 0 <= k < |g| - 1 ensures g[k].end <= g[k + 1].start {
      assert Decision(procs, key, maximize, order, recs, k + 1);
      assert FreeAt(recs, k + 1, 0) == recs[k].completion;
      if !exists j :: 0 <= j < |procs| && j !in order[..k + 1] && procs[j].arrival <= recs[k].completion {
        assert order[k + 1] !in order[..k + 1];
      }
    }
    forall k | 0 <= k < |recs| ensures MetricsHold(recs[k]) && recs[k].waiting == recs[k].response {
      assert Decision(procs, key, maximize, order, recs, k);
    }
    if DistinctNames(procs) {
      forall i | 0 <= i < |procs| ensures Busy(g, procs[i].name) == procs[i].burst {
        DistinctBoundedCard(order, |procs|);
        var k := IndexOf(order, i);
        assert Decision(procs, key, maximize, order, recs, k);
        forall m | 0 <= m < |recs| && m != k ensures recs[m].process.name != recs[k].process.name {
          assert Decision(procs, key, maximize, order, recs, m);
          assert order[m] != order[k];
        }
        TimelineBusy(recs, k);
      }
    }
  }

  /** Two complete schedules that agree on their first k decisions agree on
      decision k: the start time and the winner are forced. */
  lemma {:induction false} DecisionsAgree(procs: seq<Process>, key: seq<int>, maximize: bool,
                                          o1: seq<nat>, r1: seq<ProcResult>, o2: seq<nat>, r2: seq<ProcResult>, k: nat)
    requires |key| == |procs|
    requires NpSchedule(procs, key, maximize, o1, r1) && NpSchedule(procs, key, maximize, o2, r2)
    requires k < |procs| && o1[..k] == o2[..k] && r1[..k] == r2[..k]
    ensures o1[k] == o2[k] && r1[k] == r2[k]
  {
    assert Decision(procs, key, maximize, o1, r1, k);
    assert Decision(procs, key, maximize, o2, r2, k);
    var i1, i2 := o1[k], o2[k];
    var prev := FreeAt(r1, k, 0);
    assert FreeAt(r2, k, 0) == prev by {
      if k > 0 {
        assert r1[k - 1] == r1[..k][k - 1] == r2[..k][k - 1] == r2[k - 1];
      }
    }
    assert i2 !in o1[..k];
    if !exists j :: 0 <= j < |procs| && j !in o1[..k] && procs[j].arrival <= prev {
      assert r1[k].start <= procs[i2].arrival <= r2[k].start;
      assert r2[k].start <= procs[i1].arrival <= r1[k].start;
    }
    if i1 != i2 {
      assert false;
    }
  }

  /** The decisions pin the schedule down: there is at most one complete
      run-to-completion schedule for given processes and key. */
  lemma {:induction false} NpScheduleUnique(procs: seq<Process>, key: seq<int>, maximize: bool,
                                            o1: seq<nat>, r1: seq<ProcResult>, o2: seq<nat>, r2: seq<ProcResult>)
    requires |key| == |procs|
    requires NpSchedule(procs, key, maximize, o1, r1) && NpSchedule(procs, key, maximize, o2, r2)
    ensures o1 == o2 && r1 == r2
  {
    AgreeUpTo(procs, key, maximize, o1, r1, o2, r2, |procs|);
    assert o1 == o1[..|procs|] && o2 == o2[..|procs|];
    assert r1 == r1[..|procs|] && r2 == r2[..|procs|];
  }

  lemma {:induction false} AgreeUpTo(procs: seq<Process>, key: seq<int>, maximize: bool,
                                     o1: seq<nat>, r1: seq<ProcResult>, o2: seq<nat>, r2: seq<ProcResult>, k: nat)
    requires |key| == |procs|
    requires NpSchedule(procs, key, maximize, o1, r1) && NpSchedule(procs, key, maximize, o2, r2)
    requires k <= |procs|
    ensures o1[..k] == o2[..k] && r1[..k] == r2[..k]
  {
    if k > 0 {
      AgreeUpTo(procs, key, maximize, o1, r1, o2, r2, k - 1);
      DecisionsAgree(procs, key, maximize, o1, r1, o2, r2, k - 1);
      assert o1[..k] == o1[..k - 1] + [o1[k - 1]] && o2[..k] == o2[..k - 1] + [o2[k - 1]];
      assert r1[..k] == r1[..k - 1] + [r1[k - 1]] && r2[..k] == r2[..k - 1] + [r2[k - 1]];
    }
  }

  /** sjfScheduling (lib/scheduling-algorithms.ts:37-80): the key is the burst
      time and the smaller one wins. */
  method Sjf(procs: seq<Process>) returns (r: Schedule)
    requires ValidInput(procs)
    ensures exists order :: NpSchedule(procs, Bursts(procs), false, order, r.processes)
    ensures r.gantt == Timeline(r.processes)
    ensures WellFormed(r.gantt)
    ensures forall k :: 0 <= k < |r.processes| ==> MetricsHold(r.processes[k]) && r.processes[k].waiting == r.processes[k].response
    ensures DistinctNames(procs) ==> forall i :: 0 <= i < |procs| ==> Busy(r.gantt, procs[i].name) == procs[i].burst
  {
    r := RunToCompletion(procs, Bursts(procs), false);
  }

  /** priorityScheduling (lib/scheduling-algorithms.ts:233-291): the key is the
      priority with its fallback, and the larger one wins under `HigherFirst`,
      the smaller under `LowerFirst`. */
  method PriorityNonPreemptive(procs: seq<Process>, order: PriorityOrder := LowerFirst) returns (r: Schedule)
    requires ValidInput(procs)
    ensures exists o :: NpSchedule(procs, PriorityKeys(procs, order), Maximizes(order), o, r.processes)
    ensures r.gantt == Timeline(r.processes)
    ensures WellFormed(r.gantt)
    ensures forall k :: 0 <= k < |r.processes| ==> MetricsHold(r.processes[k]) && r.processes[k].waiting == r.processes[k].response
    ensures DistinctNames(procs) ==> forall i :: 0 <= i < |procs| ==> Busy(r.gantt, procs[i].name) == procs[i].burst
  {
    r := RunToCompletion(procs, PriorityKeys(procs, order), Maximizes(order));
  }
}
