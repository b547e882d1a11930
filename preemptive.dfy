/** The two tick-by-tick engines, `srtfScheduling` and
    `priorityPreemptiveScheduling`. Every time unit, the processes that have
    arrived and still need time are filtered; if there are none the clock
    advances by one; otherwise the best by a key (strict comparison, first
    match wins ties) runs for one unit. SRTF keys on the remaining time
    (smaller wins), the priority engine on the priority key. A run of a
    process is recorded by a trace: entry t says who held the CPU during
    [t, t + 1), if anyone. */
module PreemptiveEngine {
  import opened SchedTypes
  import opened Sorting
  import opened Gantt
  import opened Selection

  datatype Policy = ShortestRemaining | ByPriority(order: PriorityOrder)

  /** Entry t: the process that ran during [t, t + 1), or None when idle. */
  type Trace = seq<Option<nat>>

  predicate InRange(trace: Trace, n: nat) {
    forall t :: 0 <= t < |trace| && trace[t].Some? ==> trace[t].value < n
  }

  /** Number of units process i has run. */
  function Ran(trace: Trace, i: nat): nat {
    if trace == [] then 0
    else Ran(trace[..|trace| - 1], i) + (if trace[|trace| - 1] == Some(i) then 1 else 0)
  }

  /** The first unit process i ran, if any. */
  function FirstRun(trace: Trace, i: nat): Option<nat> {
    if trace == [] then None
    else
      var f := FirstRun(trace[..|trace| - 1], i);
      if f.Some? then f
      else if trace[|trace| - 1] == Some(i) then Some(|trace| - 1)
      else None
  }

  /** The last unit process i ran, if any. */
  function LastRun(trace: Trace, i: nat): Option<nat> {
    if trace == [] then None
    else if trace[|trace| - 1] == Some(i) then Some(|trace| - 1)
    else LastRun(trace[..|trace| - 1], i)
  }

  /** The last unit anybody ran, if any. */
  function LastBusy(trace: Trace): Option<nat> {
    if trace == [] then None
    else if trace[|trace| - 1].Some? then Some(|trace| - 1)
    else LastBusy(trace[..|trace| - 1])
  }

  /** How the counters move when one more unit is recorded. */
  lemma RunAppend(trace: Trace, x: Option<nat>, i: nat)
    ensures Ran(trace + [x], i) == Ran(trace, i) + (if x == Some(i) then 1 else 0)
    ensures FirstRun(trace + [x], i) ==
      if FirstRun(trace, i).Some? then FirstRun(trace, i)
      else if x == Some(i) then Some(|trace|) else None
    ensures LastRun(trace + [x], i) == if x == Some(i) then Some(|trace|) else LastRun(trace, i)
    ensures LastBusy(trace + [x]) == if x.Some? then Some(|trace|) else LastBusy(trace)
  {
    assert (trace + [x])[..|trace|] == trace;
  }

  /** Process i has run iff it has a first and a last unit; both hold i, and
      all its units lie between them. */
  lemma {:induction false} RunSpan(trace: Trace, i: nat)
    ensures Ran(trace, i) > 0 <==> FirstRun(trace, i).Some?
    ensures FirstRun(trace, i).Some? <==> LastRun(trace, i).Some?
    ensures FirstRun(trace, i).Some? ==>
      && FirstRun(trace, i).value <= LastRun(trace, i).value < |trace|
      && trace[FirstRun(trace, i).value] == Some(i)
      && trace[LastRun(trace, i).value] == Some(i)
      && Ran(trace, i) <= LastRun(trace, i).value + 1 - FirstRun(trace, i).value
  {
    if trace != [] {
      var init := trace[..|trace| - 1];
      RunSpan(init, i);
      RunAppend(init, trace[|trace| - 1], i);
      assert init + [trace[|trace| - 1]] == trace;
    }
  }

  /** The time process j still needs after the units in `past`. */
  function Left(procs: seq<Process>, past: Trace, j: nat): int
    requires j < |procs|
  {
    procs[j].burst - Ran(past, j)
  }

  /** Process j is a candidate at time t: arrived, and not finished. */
  predicate Ready(procs: seq<Process>, past: Trace, j: nat, t: int)
    requires j < |procs|
  {
    procs[j].arrival <= t && Left(procs, past, j) > 0
  }

  /** The selection key of process j after the units in `past`. */
  function Key(procs: seq<Process>, policy: Policy, past: Trace, j: nat): int
    requires j < |procs|
  {
    match policy
    case ShortestRemaining => Left(procs, past, j)
    case ByPriority(order) => PriorityKey(procs[j], order)
  }

  /** Whether the larger key wins. */
  predicate Maximize(policy: Policy) {
    policy.ByPriority? && Maximizes(policy.order)
  }

  /** Unit t of a valid run: idle exactly when nobody is ready; otherwise the
      process that ran is ready, and no other ready process has a better key,
      nor an equal key and a smaller input position. */
  predicate TickOK(procs: seq<Process>, policy: Policy, trace: Trace, t: nat)
    requires t < |trace|
  {
    var past := trace[..t];
    match trace[t]
    case None => forall j :: 0 <= j < |procs| ==> !Ready(procs, past, j, t)
    case Some(i) =>
      && i < |procs| && Ready(procs, past, i, t)
      && forall j :: 0 <= j < |procs| && j != i && Ready(procs, past, j, t) ==>
           && !Beats(Maximize(policy), Key(procs, policy, past, j), Key(procs, policy, past, i))
           && (Key(procs, policy, past, j) == Key(procs, policy, past, i) ==> i < j)
  }

  /** Some process still needs time. */
  predicate Unfinished(procs: seq<Process>, past: Trace) {
    exists j :: 0 <= j < |procs| && Ran(past, j) < procs[j].burst
  }

  /** A complete run: every unit is valid and taken while some process still
      needed time, and at the end every process has run its whole burst. */
  predicate PreemptiveTrace(procs: seq<Process>, policy: Policy, trace: Trace) {
    && InRange(trace, |procs|)
    && (forall t :: 0 <= t < |trace| ==> TickOK(procs, policy, trace, t) && Unfinished(procs, trace[..t]))
    && (forall j :: 0 <= j < |procs| ==> Ran(trace, j) == procs[j].burst)
  }

  /** The Gantt chart the engines draw for a trace: each busy unit extends
      the last segment when it has the same name, or starts a new one. */
  function Chart(procs: seq<Process>, trace: Trace): seq<Segment>
    requires InRange(trace, |procs|)
  {
    if trace == [] then []
    else
      var init := trace[..|trace| - 1];
      var g := Chart(procs, init);
      match trace[|trace| - 1]
      case None => g
      case Some(i) => AddTick(g, procs[i].name, |trace|)
  }

  /** The per-process results a trace determines, in input order: started in
      its first unit, completed at the end of its last. */
  predicate ResultOfTrace(procs: seq<Process>, trace: Trace, recs: seq<ProcResult>) {
    && |recs| == |procs|
    && forall i :: 0 <= i < |procs| ==>
         && FirstRun(trace, i).Some? && LastRun(trace, i).Some?
         && recs[i] == Finished(procs[i], FirstRun(trace, i).value, LastRun(trace, i).value + 1)
  }

  /** The chart is ordered and non-overlapping; it is empty iff nothing ran,
      and otherwise its last segment ends after the last busy unit and carries
      the name of the process that ran then. */
  lemma {:induction false} ChartShape(procs: seq<Process>, trace: Trace)
    requires InRange(trace, |procs|)
    ensures var g := Chart(procs, trace);
      && WellFormed(g)
      && (g == [] <==> LastBusy(trace).None?)
      && (g != [] ==>
            && LastBusy(trace).value < |trace|
            && g[|g| - 1].end == LastBusy(trace).value + 1
            && trace[LastBusy(trace).value].Some?
            && g[|g| - 1].name == procs[trace[LastBusy(trace).value].value].name)
  {
    if trace != [] {
      var init := trace[..|trace| - 1];
      var x := trace[|trace| - 1];
      assert InRange(init, |procs|);
      ChartShape(procs, init);
      RunAppend(init, x, 0);
      assert init + [x] == trace;
      if x.Some? {
        AddTickProperties(Chart(procs, init), procs[x.value].name, |trace|);
      }
    }
  }

  /** Every unit after the last busy one is idle. */
  lemma {:induction false} LastBusySpan(trace: Trace)
    ensures LastBusy(trace).Some? ==> LastBusy(trace).value < |trace| && trace[LastBusy(trace).value].Some?
    ensures forall t :: 0 <= t < |trace| && (LastBusy(trace).None? || LastBusy(trace).value < t) ==> trace[t].None?
  {
    if trace != [] && trace[|trace| - 1].None? {
      var init := trace[..|trace| - 1];
      LastBusySpan(init);
      assert forall t :: 0 <= t < |init| ==> init[t] == trace[t];
    }
  }

  /** A valid unit stays valid when more units are recorded after it. */
  lemma TickOKPrefix(procs: seq<Process>, policy: Policy, trace: Trace, m: nat, t: nat)
    requires t < m <= |trace|
    ensures TickOK(procs, policy, trace[..m], t) <==> TickOK(procs, policy, trace, t)
  {
    assert trace[..m][..t] == trace[..t];
  }

  /** With distinct names, when process i runs in the latest unit m and the
      chart so far ends with its name, that segment ends at m: a ready
      process is never kept waiting by an idle unit. */
  lemma NoIdleGap(procs: seq<Process>, policy: Policy, trace: Trace, i: nat)
    requires |trace| > 0 && InRange(trace, |procs|) && DistinctNames(procs)
    requires forall t :: 0 <= t < |trace| ==> TickOK(procs, policy, trace, t)
    requires trace[|trace| - 1] == Some(i)
    ensures var m := |trace| - 1;
      var g := Chart(procs, trace[..m]);
      g != [] && g[|g| - 1].name == procs[i].name ==> g[|g| - 1].end == m
  {
    var m := |trace| - 1;
    var init := trace[..m];
    assert InRange(init, |procs|);
    var g := Chart(procs, init);
    if g != [] && g[|g| - 1].name == procs[i].name {
      assert TickOK(procs, policy, trace, m);
      ChartShape(procs, init);
      LastBusySpan(init);
      var l := LastBusy(init).value;
      var k := init[l].value;
      assert procs[k].name == procs[i].name;
      assert trace[l] == Some(i);
      assert TickOK(procs, policy, trace, l);
      var past := trace[..m - 1];
      assert past + [trace[m - 1]] == init;
      RunAppend(past, trace[m - 1], i);
      assert Ready(procs, past, i, m - 1);
      assert TickOK(procs, policy, trace, m - 1);
      assert init[m - 1].Some?;
    }
  }

  /** With distinct names, a valid run's chart shows each process busy for
      exactly the units it ran. */
  lemma {:induction false} ChartBusy(procs: seq<Process>, policy: Policy, trace: Trace)
    requires InRange(trace, |procs|) && DistinctNames(procs)
    requires forall t :: 0 <= t < |trace| ==> TickOK(procs, policy, trace, t)
    ensures forall j :: 0 <= j < |procs| ==> Busy(Chart(procs, trace), procs[j].name) == Ran(trace, j)
  {
    if trace != [] {
      var m := |trace| - 1;
      var init := trace[..m];
      assert InRange(init, |procs|);
      forall t | 0 <= t < m ensures TickOK(procs, policy, init, t) {
        TickOKPrefix(procs, policy, trace, m, t);
      }
      ChartBusy(procs, policy, init);
      if trace[m].Some? {
        ChartBusyRun(procs, policy, trace);
      } else {
        assert init + [None] == trace;
        assert Chart(procs, trace) == Chart(procs, init);
        forall j | 0 <= j < |procs| ensures Busy(Chart(procs, trace), procs[j].name) == Ran(trace, j) {
          RunAppend(init, None, j);
        }
      }
    }
  }

  /** The inductive step of ChartBusy for a busy unit. */
  lemma ChartBusyRun(procs: seq<Process>, policy: Policy, trace: Trace)
    requires |trace| > 0 && InRange(trace, |procs|) && DistinctNames(procs)
    requires forall t :: 0 <= t < |trace| ==> TickOK(procs, policy, trace, t)
    requires trace[|trace| - 1].Some?
    requires var init := trace[..|trace| - 1];
      forall j :: 0 <= j < |procs| ==> Busy(Chart(procs, init), procs[j].name) == Ran(init, j)
    ensures forall j :: 0 <= j < |procs| ==> Busy(Chart(procs, trace), procs[j].name) == Ran(trace, j)
  {
    var m := |trace| - 1;
    var init := trace[..m];
    var i := trace[m].value;
    assert init + [Some(i)] == trace;
    assert InRange(init, |procs|);
    var g := Chart(procs, init);
    assert Chart(procs, trace) == AddTick(g, procs[i].name, |trace|);
    NoIdleGap(procs, policy, trace, i);
    ChartShape(procs, init);
    AddTickProperties(g, procs[i].name, |trace|);
    forall j | 0 <= j < |procs| ensures Busy(Chart(procs, trace), procs[j].name) == Ran(trace, j) {
      RunAppend(init, Some(i), j);
      assert procs[j].name == procs[i].name <==> j == i;
    }
  }

  /** In a complete run every process ran, starting no earlier than its
      arrival, and the emitted metrics agree: response is at most waiting,
      because the burst fits between the first unit and the last. */
  lemma TraceMetrics(procs: seq<Process>, policy: Policy, trace: Trace)
    requires ValidInput(procs) && PreemptiveTrace(procs, policy, trace)
    ensures forall i :: 0 <= i < |procs| ==>
      && FirstRun(trace, i).Some? && LastRun(trace, i).Some?
      && MetricsHold(Finished(procs[i], FirstRun(trace, i).value, LastRun(trace, i).value + 1))
  {
    forall i | 0 <= i < |procs|
      ensures FirstRun(trace, i).Some? && LastRun(trace, i).Some?
      ensures MetricsHold(Finished(procs[i], FirstRun(trace, i).value, LastRun(trace, i).value + 1))
    {
      RunSpan(trace, i);
      assert TickOK(procs, policy, trace, FirstRun(trace, i).value);
    }
  }

  /** What a complete run guarantees: the chart is ordered and
      non-overlapping, the metrics agree, and with distinct names each
      process is shown busy for exactly its burst. */
  lemma TraceProperties(procs: seq<Process>, policy: Policy, trace: Trace)
    requires ValidInput(procs) && PreemptiveTrace(procs, policy, trace)
    ensures WellFormed(Chart(procs, trace))
    ensures forall i :: 0 <= i < |procs| ==>
      && FirstRun(trace, i).Some? && LastRun(trace, i).Some?
      && MetricsHold(Finished(procs[i], FirstRun(trace, i).value, LastRun(trace, i).value + 1))
    ensures DistinctNames(procs) ==>
      forall i :: 0 <= i < |procs| ==> Busy(Chart(procs, trace), procs[i].name) == procs[i].burst
  {
    ChartShape(procs, trace);
    TraceMetrics(procs, policy, trace);
    if DistinctNames(procs) {
      ChartBusy(procs, policy, trace);
    }
  }

  /** Two complete runs that agree on the first k units agree on unit k. */
  lemma TicksAgree(procs: seq<Process>, policy: Policy, t1: Trace, t2: Trace, k: nat)
    requires PreemptiveTrace(procs, policy, t1) && PreemptiveTrace(procs, policy, t2)
    requires k < |t1| && k < |t2| && t1[..k] == t2[..k]
    ensures t1[k] == t2[k]
  {
    assert TickOK(procs, policy, t1, k) && TickOK(procs, policy, t2, k);
    if t1[k].Some? && t2[k].Some? && t1[k] != t2[k] {
      assert false;
    }
  }

  /** A complete run is unique: the rules of TickOK and the stopping rule
      leave no choice. */
  lemma TraceUnique(procs: seq<Process>, policy: Policy, t1: Trace, t2: Trace)
    requires PreemptiveTrace(procs, policy, t1) && PreemptiveTrace(procs, policy, t2)
    ensures t1 == t2
  {
    if |t1| <= |t2| {
      ShorterTraceIsSame(procs, policy, t1, t2);
    } else {
      ShorterTraceIsSame(procs, policy, t2, t1);
    }
  }

  lemma ShorterTraceIsSame(procs: seq<Process>, policy: Policy, t: Trace, u: Trace)
    requires PreemptiveTrace(procs, policy, t) && PreemptiveTrace(procs, policy, u)
    requires |t| <= |u|
    ensures t == u
  {
    TicksAgreeUpTo(procs, policy, t, u, |t|);
    assert u[..|t|] == t;
    StopsWhenDone(procs, policy, t, u);
  }

  /** A run that extends a finished run is that run: no unit is taken once
      every process has its whole burst. */
  lemma StopsWhenDone(procs: seq<Process>, policy: Policy, t: Trace, u: Trace)
    requires PreemptiveTrace(procs, policy, u)
    requires forall j :: 0 <= j < |procs| ==> Ran(t, j) == procs[j].burst
    requires |t| <= |u| && u[..|t|] == t
    ensures u == t
  {
  }

  lemma {:induction false} TicksAgreeUpTo(procs: seq<Process>, policy: Policy, t1: Trace, t2: Trace, k: nat)
    requires PreemptiveTrace(procs, policy, t1) && PreemptiveTrace(procs, policy, t2)
    requires k <= |t1| && k <= |t2|
    ensures t1[..k] == t2[..k]
  {
    if k > 0 {
      TicksAgreeUpTo(procs, policy, t1, t2, k - 1);
      TicksAgree(procs, policy, t1, t2, k - 1);
      assert t1[..k] == t1[..k - 1] + [t1[k - 1]] && t2[..k] == t2[..k - 1] + [t2[k - 1]];
    }
  }

  // The loop of the engines, on the working copies of the processes.

  /** Some process still needs time: the loop condition of the tick engines. */
  predicate SomeLeft(ws: seq<Work>) {
    exists j :: 0 <= j < |ws| && ws[j].remaining > 0
  }

  /** The key of every working copy the reduce compares. */
  function TickKeys(ws: seq<Work>, policy: Policy): (r: seq<int>)
    ensures |r| == |ws|
    ensures forall j :: 0 <= j < |ws| ==>
      r[j] == match policy
              case ShortestRemaining => ws[j].remaining
              case ByPriority(order) => PriorityKey(ws[j].process, order)
  {
    seq(|ws|, j requires 0 <= j < |ws| =>
      match policy
      case ShortestRemaining => ws[j].remaining
      case ByPriority(order) => PriorityKey(ws[j].process, order))
  }

  /** The latest arrival: the idle ticks never pass it. */
  function LatestArrival(procs: seq<Process>): (r: int)
    ensures forall j :: 0 <= j < |procs| ==> procs[j].arrival <= r
  {
    if procs == [] then 0 else Max(LatestArrival(procs[..|procs| - 1]), procs[|procs| - 1].arrival)
  }

  /** Each working copy holds its process, the time it still needs and its
      first unit. */
  predicate WorkMatches(procs: seq<Process>, ws: seq<Work>, trace: Trace) {
    && |ws| == |procs|
    && forall j :: 0 <= j < |procs| ==>
         && ws[j].process == procs[j]
         && ws[j].remaining == procs[j].burst - Ran(trace, j) >= 0
         && ws[j].start == FirstRun(trace, j)
  }

  /** The working copy of a ready process holds that process and some time left. */
  lemma WorkAt(procs: seq<Process>, ws: seq<Work>, trace: Trace, w: nat)
    requires WorkMatches(procs, ws, trace) && w < |procs|
    ensures ws[w].process == procs[w] && ws[w].remaining == procs[w].burst - Ran(trace, w)
  {
  }

  /** Every unit so far is valid and was taken while some process needed time. */
  predicate TicksValid(procs: seq<Process>, policy: Policy, trace: Trace) {
    forall t :: 0 <= t < |trace| ==> TickOK(procs, policy, trace, t) && Unfinished(procs, trace[..t])
  }

  /** `completed` holds, in completion order `done`, the record of every
      process that has run its whole burst. */
  predicate DoneMatches(procs: seq<Process>, trace: Trace, completed: seq<ProcResult>, done: seq<nat>) {
    && InBounds(done, |procs|) && |completed| == |done|
    && Distinct(done)
    && (forall j :: 0 <= j < |procs| ==> (j in done <==> Ran(trace, j) == procs[j].burst))
    && (forall k :: 0 <= k < |done| ==>
          && FirstRun(trace, done[k]).Some? && LastRun(trace, done[k]).Some?
          && completed[k] == Finished(procs[done[k]], FirstRun(trace, done[k]).value, LastRun(trace, done[k]).value + 1))
  }

  /** The loop state after the units `trace`. */
  predicate TickState(procs: seq<Process>, policy: Policy, ws: seq<Work>, trace: Trace, gantt: seq<Segment>,
                      completed: seq<ProcResult>, done: seq<nat>)
  {
    && InRange(trace, |procs|)
    && WorkMatches(procs, ws, trace)
    && TicksValid(procs, policy, trace)
    && gantt == Chart(procs, trace)
    && DoneMatches(procs, trace, completed, done)
  }

  /** The working copies start with the whole burst and no start time. */
  lemma TickInit(procs: seq<Process>, policy: Policy, ws: seq<Work>)
    requires ValidInput(procs)
    requires |ws| == |procs| && forall j :: 0 <= j < |procs| ==> ws[j] == Work(procs[j], procs[j].burst, None)
    ensures TickState(procs, policy, ws, [], [], [], [])
  {
  }

  /** Recording one more unit keeps the earlier units valid. */
  lemma TicksExtend(procs: seq<Process>, policy: Policy, trace: Trace, x: Option<nat>)
    requires TicksValid(procs, policy, trace)
    requires TickOK(procs, policy, trace + [x], |trace|) && Unfinished(procs, trace)
    ensures TicksValid(procs, policy, trace + [x])
  {
    var tr := trace + [x];
    assert tr[..|trace|] == trace;
    forall t | 0 <= t < |trace| ensures TickOK(procs, policy, tr, t) && Unfinished(procs, tr[..t]) {
      TickOKPrefix(procs, policy, tr, |trace|, t);
      assert tr[..t] == trace[..t];
    }
  }

  /** The filter finds exactly the ready processes, and the reduce keys are
      the policy's keys. */
  lemma AvailableIsReady(procs: seq<Process>, policy: Policy, ws: seq<Work>, trace: Trace, gantt: seq<Segment>,
                         completed: seq<ProcResult>, done: seq<nat>)
    requires TickState(procs, policy, ws, trace, gantt, completed, done)
    ensures forall j :: 0 <= j < |procs| ==> (j in Available(ws, |trace|) <==> Ready(procs, trace, j, |trace|))
    ensures forall j :: 0 <= j < |procs| ==> TickKeys(ws, policy)[j] == Key(procs, policy, trace, j)
  {
  }

  /** An idle unit changes no working copy and no record. */
  lemma IdleKeepsRecords(procs: seq<Process>, ws: seq<Work>, trace: Trace, completed: seq<ProcResult>, done: seq<nat>)
    requires WorkMatches(procs, ws, trace) && DoneMatches(procs, trace, completed, done)
    ensures WorkMatches(procs, ws, trace + [None]) && DoneMatches(procs, trace + [None], completed, done)
  {
    forall j | 0 <= j < |procs| ensures Ran(trace + [None], j) == Ran(trace, j) && FirstRun(trace + [None], j) == FirstRun(trace, j)
      ensures LastRun(trace + [None], j) == LastRun(trace, j)
    {
      RunAppend(trace, None, j);
    }
  }

  /** An idle tick: nobody is ready, so the unit is idle and nothing but the
      clock moves; the clock stays before the latest arrival. */
  lemma TickIdle(procs: seq<Process>, policy: Policy, ws: seq<Work>, trace: Trace, gantt: seq<Segment>,
                 completed: seq<ProcResult>, done: seq<nat>)
    requires TickState(procs, policy, ws, trace, gantt, completed, done)
    requires SomeLeft(ws) && |Available(ws, |trace|)| == 0
    ensures TickState(procs, policy, ws, trace + [None], gantt, completed, done)
    ensures |trace| < LatestArrival(procs)
  {
    var tr := trace + [None];
    assert tr[..|trace|] == trace;
    AvailableIsReady(procs, policy, ws, trace, gantt, completed, done);
    var j :| 0 <= j < |ws| && ws[j].remaining > 0;
    assert !Ready(procs, trace, j, |trace|);
    assert TickOK(procs, policy, tr, |trace|);
    TicksExtend(procs, policy, trace, None);
    IdleKeepsRecords(procs, ws, trace, completed, done);
    assert Chart(procs, tr) == Chart(procs, trace);
  }

  /** The unit the loop records when someone is ready is valid. */
  lemma ChosenTickOK(procs: seq<Process>, policy: Policy, ws: seq<Work>, trace: Trace, gantt: seq<Segment>,
                     completed: seq<ProcResult>, done: seq<nat>)
    requires TickState(procs, policy, ws, trace, gantt, completed, done)
    requires |Available(ws, |trace|)| > 0
    ensures var av := Available(ws, |trace|);
      var w := av[Reduce(av, TickKeys(ws, policy), Maximize(policy))];
      w < |procs| && Ready(procs, trace, w, |trace|) && TickOK(procs, policy, trace + [Some(w)], |trace|)
  {
    var av := Available(ws, |trace|);
    var keys := TickKeys(ws, policy);
    var w := av[Reduce(av, keys, Maximize(policy))];
    var tr := trace + [Some(w)];
    assert tr[..|trace|] == trace;
    AvailableIsReady(procs, policy, ws, trace, gantt, completed, done);
    forall j | 0 <= j < |procs| && j != w && Ready(procs, trace, j, |trace|)
      ensures !Beats(Maximize(policy), Key(procs, policy, trace, j), Key(procs, policy, trace, w))
      ensures Key(procs, policy, trace, j) == Key(procs, policy, trace, w) ==> w < j
    {
      ReduceWinner(av, keys, Maximize(policy), j);
    }
  }

  /** A busy unit for process w: its copy gains its start time if it had
      none and loses one unit; every other copy is unchanged; and it is
      recorded as finished exactly when nothing is left. */
  lemma RunKeepsRecords(procs: seq<Process>, ws: seq<Work>, trace: Trace, completed: seq<ProcResult>, done: seq<nat>,
                        w: nat, ws2: seq<Work>, completed2: seq<ProcResult>, done2: seq<nat>)
    requires WorkMatches(procs, ws, trace) && DoneMatches(procs, trace, completed, done)
    requires w < |procs| && Ran(trace, w) < procs[w].burst
    requires ws2 == ws[w := Work(procs[w], ws[w].remaining - 1, if ws[w].start.None? then Some(|trace|) else ws[w].start)]
    requires if ws2[w].remaining == 0
      then completed2 == completed + [Finished(procs[w], ws2[w].start.value, |trace| + 1)] && done2 == done + [w]
      else completed2 == completed && done2 == done
    ensures WorkMatches(procs, ws2, trace + [Some(w)])
    ensures DoneMatches(procs, trace + [Some(w)], completed2, done2)
  {
    var tr := trace + [Some(w)];
    forall j | 0 <= j < |procs|
      ensures Ran(tr, j) == Ran(trace, j) + (if j == w then 1 else 0)
      ensures FirstRun(tr, j) == if FirstRun(trace, j).Some? then FirstRun(trace, j) else if j == w then Some(|trace|) else None
      ensures LastRun(tr, j) == if j == w then Some(|trace|) else LastRun(trace, j)
    {
      RunAppend(trace, Some(w), j);
    }
    assert w !in done;
    if ws2[w].remaining == 0 {
      forall k, m | 0 <= k < m < |done2| ensures done2[k] != done2[m] {
        if m == |done| {
          assert done[k] in done;
        }
      }
    }
  }

  /** A busy tick keeps the loop state, and the total time left drops by one. */
  lemma TickRun(procs: seq<Process>, policy: Policy, ws: seq<Work>, trace: Trace, gantt: seq<Segment>,
                completed: seq<ProcResult>, done: seq<nat>,
                w: nat, ws2: seq<Work>, gantt2: seq<Segment>, completed2: seq<ProcResult>, done2: seq<nat>)
    requires TickState(procs, policy, ws, trace, gantt, completed, done)
    requires |Available(ws, |trace|)| > 0
    requires w == Available(ws, |trace|)[Reduce(Available(ws, |trace|), TickKeys(ws, policy), Maximize(policy))]
    requires ws2 == ws[w := Work(procs[w], ws[w].remaining - 1, if ws[w].start.None? then Some(|trace|) else ws[w].start)]
    requires gantt2 == AddTick(gantt, procs[w].name, |trace| + 1)
    requires if ws2[w].remaining == 0
      then completed2 == completed + [Finished(procs[w], ws2[w].start.value, |trace| + 1)] && done2 == done + [w]
      else completed2 == completed && done2 == done
    ensures TickState(procs, policy, ws2, trace + [Some(w)], gantt2, completed2, done2)
    ensures 0 <= SumRem(ws2) == SumRem(ws) - 1
  {
    var tr := trace + [Some(w)];
    ChosenTickOK(procs, policy, ws, trace, gantt, completed, done);
    assert Unfinished(procs, trace);
    TicksExtend(procs, policy, trace, Some(w));
    RunKeepsRecords(procs, ws, trace, completed, done, w, ws2, completed2, done2);
    assert tr[..|trace|] == trace;
    assert Chart(procs, tr) == gantt2;
    SumRemUpdate(ws, w, ws2[w]);
    SumRemNonneg(ws2);
  }

  /** One busy unit: the ready process with the best key (first on ties)
      takes its first unit if it has none yet, loses one unit of remaining
      time, extends the chart, and completes when none is left. */
  method BusyTick(procs: seq<Process>, policy: Policy, work: array<Work>, clock: int, gantt: seq<Segment>,
                  completed: seq<ProcResult>, ghost ws: seq<Work>, ghost trace: Trace, ghost done: seq<nat>)
    returns (w: nat, gantt2: seq<Segment>, completed2: seq<ProcResult>, ghost ws2: seq<Work>, ghost done2: seq<nat>)
    requires work.Length == |procs| && work[..] == ws && clock == |trace|
    requires TickState(procs, policy, ws, trace, gantt, completed, done)
    requires |Available(ws, clock)| > 0
    modifies work
    ensures var av := Available(ws, clock);
      && w == av[Reduce(av, TickKeys(ws, policy), Maximize(policy))]
      && ws2 == ws[w := Work(procs[w], ws[w].remaining - 1, if ws[w].start.None? then Some(clock) else ws[w].start)]
      && work[..] == ws2
    ensures gantt2 == AddTick(gantt, procs[w].name, clock + 1)
    ensures TickState(procs, policy, ws2, trace + [Some(w)], gantt2, completed2, done2)
    ensures 0 <= SumRem(ws2) == SumRem(ws) - 1
  {
    var available := Available(work[..], clock);
    w := available[Reduce(available, TickKeys(work[..], policy), Maximize(policy))];
    var cur := work[w];
    WorkAt(procs, ws, trace, w);
    var next := Work(cur.process, cur.remaining - 1, if cur.start.None? then Some(clock) else cur.start);
    assert next == Work(procs[w], ws[w].remaining - 1, if ws[w].start.None? then Some(clock) else ws[w].start);
    ws2 := ws[w := Work(procs[w], ws[w].remaining - 1, if ws[w].start.None? then Some(clock) else ws[w].start)];
    work[w] := next;
    assert work[..] == ws2;
    gantt2 := AddTick(gantt, procs[w].name, clock + 1);
    completed2 := if next.remaining == 0 then completed + [Finished(procs[w], next.start.value, clock + 1)] else completed;
    done2 := if next.remaining == 0 then done + [w] else done;
    TickRun(procs, policy, ws, trace, gantt, completed, done, w, ws2, gantt2, completed2, done2);
  }

  /** The shared loop of `srtfScheduling` (lib/scheduling-algorithms.ts:82-134)
      and `priorityPreemptiveScheduling` (:293-360). */
  method RunTicks(procs: seq<Process>, policy: Policy) returns (r: Schedule)
    requires ValidInput(procs) && DistinctIds(procs)
    ensures exists trace ::
      PreemptiveTrace(procs, policy, trace) && ResultOfTrace(procs, trace, r.processes) && r.gantt == Chart(procs, trace)
    ensures WellFormed(r.gantt)
    ensures |r.processes| == |procs|
    ensures forall i :: 0 <= i < |procs| ==> r.processes[i].process == procs[i] && MetricsHold(r.processes[i])
    ensures DistinctNames(procs) ==> forall i :: 0 <= i < |procs| ==> Busy(r.gantt, procs[i].name) == procs[i].burst
  {
    var work := new Work[|procs|](j requires 0 <= j < |procs| => Work(procs[j], procs[j].burst, None));
    var gantt: seq<Segment> := [];
    var completed: seq<ProcResult> := [];
    var clock := 0;
    ghost var trace: Trace := [];
    ghost var done: seq<nat> := [];
    TickInit(procs, policy, work[..]);
    while SomeLeft(work[..])
      invariant work.Length == |procs| && clock == |trace|
      invariant TickState(procs, policy, work[..], trace, gantt, completed, done)
      decreases SumRem(work[..]), LatestArrival(procs) - clock
    {
      var available := Available(work[..], clock);
      if |available| == 0 {
        TickIdle(procs, policy, work[..], trace, gantt, completed, done);
        clock := clock + 1;
        trace := trace + [None];
        continue;
      }
      var w;
      ghost var ws2;
      w, gantt, completed, ws2, done := BusyTick(procs, policy, work, clock, gantt, completed, work[..], trace, done);
      clock := clock + 1;
      trace := trace + [Some(w)];
    }
    r := Schedule(SortByInputPosition(procs, completed), gantt);
    FinishedRun(procs, policy, work[..], trace, gantt, completed, done);
  }

  /** When no copy needs time, the trace is complete and every process is
      in `done`, once. */
  lemma FinishedRun(procs: seq<Process>, policy: Policy, ws: seq<Work>, trace: Trace, gantt: seq<Segment>,
                    completed: seq<ProcResult>, done: seq<nat>)
    requires ValidInput(procs) && DistinctIds(procs)
    requires TickState(procs, policy, ws, trace, gantt, completed, done) && !SomeLeft(ws)
    ensures var out := SortByInputPosition(procs, completed);
      && PreemptiveTrace(procs, policy, trace) && ResultOfTrace(procs, trace, out) && gantt == Chart(procs, trace)
      && WellFormed(gantt)
      && |out| == |procs|
      && (forall i :: 0 <= i < |procs| ==> out[i].process == procs[i] && MetricsHold(out[i]))
      && (DistinctNames(procs) ==> forall i :: 0 <= i < |procs| ==> Busy(gantt, procs[i].name) == procs[i].burst)
  {
    assert forall j :: 0 <= j < |procs| ==> ws[j].remaining == 0;
    CoveringDistinctIsPermutation(done, |procs|);
    RestoredResults(procs, trace, completed, done);
    TraceProperties(procs, policy, trace);
  }

  /** Re-sorting the completion-ordered records by input position gives the
      results the trace determines, in input order. */
  lemma RestoredResults(procs: seq<Process>, trace: Trace, completed: seq<ProcResult>, done: seq<nat>)
    requires DistinctIds(procs)
    requires DoneMatches(procs, trace, completed, done) && IsPermutation(done, |procs|)
    ensures ResultOfTrace(procs, trace, SortByInputPosition(procs, completed))
  {
    var out := SortByInputPosition(procs, completed);
    SortByInputPositionRestoresOrder(procs, completed, done);
    forall i | 0 <= i < |procs|
      ensures FirstRun(trace, i).Some? && LastRun(trace, i).Some?
      ensures out[i] == Finished(procs[i], FirstRun(trace, i).value, LastRun(trace, i).value + 1)
    {
      DoneOf(procs, trace, completed, done, i);
    }
  }

  /** The record of a completed process, from DoneMatches. */
  lemma DoneOf(procs: seq<Process>, trace: Trace, completed: seq<ProcResult>, done: seq<nat>, i: nat)
    requires DoneMatches(procs, trace, completed, done) && i in done
    ensures FirstRun(trace, i).Some? && LastRun(trace, i).Some?
    ensures completed[IndexOf(done, i)] == Finished(procs[i], FirstRun(trace, i).value, LastRun(trace, i).value + 1)
  {
    var k := IndexOf(done, i);
    assert done[k] == i;
  }

  /** srtfScheduling: every unit goes to the ready process with the least
      remaining time, the first one on ties. */
  method Srtf(procs: seq<Process>) returns (r: Schedule)
    requires ValidInput(procs) && DistinctIds(procs)
    ensures exists trace ::
      PreemptiveTrace(procs, ShortestRemaining, trace) && ResultOfTrace(procs, trace, r.processes) && r.gantt == Chart(procs, trace)
    ensures WellFormed(r.gantt)
    ensures |r.processes| == |procs|
    ensures forall i :: 0 <= i < |procs| ==> r.processes[i].process == procs[i] && MetricsHold(r.processes[i])
    ensures DistinctNames(procs) ==> forall i :: 0 <= i < |procs| ==> Busy(r.gantt, procs[i].name) == procs[i].burst
  {
    r := RunTicks(procs, ShortestRemaining);
  }

  /** priorityPreemptiveScheduling: every unit goes to the ready process with
      the best priority key, the first one on ties. */
  method PriorityPreemptive(procs: seq<Process>, order: PriorityOrder := LowerFirst) returns (r: Schedule)
    requires ValidInput(procs) && DistinctIds(procs)
    ensures exists trace ::
      PreemptiveTrace(procs, ByPriority(order), trace) && ResultOfTrace(procs, trace, r.processes) && r.gantt == Chart(procs, trace)
    ensures WellFormed(r.gantt)
    ensures |r.processes| == |procs|
    ensures forall i :: 0 <= i < |procs| ==> r.processes[i].process == procs[i] && MetricsHold(r.processes[i])
    ensures DistinctNames(procs) ==> forall i :: 0 <= i < |procs| ==> Busy(r.gantt, procs[i].name) == procs[i].burst
  {
    r := RunTicks(procs, ByPriority(order));
  }
}
