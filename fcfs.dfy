/** First-Come-First-Served (`fcfsScheduling`): processes in stable arrival
    order, each run to completion as soon as both the CPU is free and the
    process has arrived. */
module FcfsEngine {
  import opened SchedTypes
  import opened Sorting
  import opened Gantt

  function Arrivals(procs: seq<Process>): (r: seq<int>)
    ensures |r| == |procs|
    ensures forall i :: 0 <= i < |procs| ==> r[i] == procs[i].arrival
  {
    seq(|procs|, i requires 0 <= i < |procs| => procs[i].arrival)
  }

  /** The processes sorted by arrival time with a stable sort, as input
      positions: every process once, by arrival, ties in input order. */
  function ArrivalOrder(procs: seq<Process>): (r: seq<nat>)
    ensures |r| == |procs| && InBounds(r, |procs|)
  {
    SortedPositions(Arrivals(procs))
  }

  /** ArrivalOrder lists every process once, by arrival, ties in input order. */
  lemma ArrivalOrderSorted(procs: seq<Process>)
    ensures var r := ArrivalOrder(procs);
      && IsPermutation(r, |procs|)
      && (forall k, m :: 0 <= k < m < |r| ==> procs[r[k]].arrival <= procs[r[m]].arrival)
      && (forall k, m :: 0 <= k < m < |r| && procs[r[k]].arrival == procs[r[m]].arrival ==> r[k] < r[m])
  {
  }

  /** Reference definition: serve the processes at the positions `order` one
      after another, the CPU being free from `clock` on. */
  function Serve(procs: seq<Process>, order: seq<nat>, clock: int): (r: seq<ProcResult>)
    requires InBounds(order, |procs|)
    ensures |r| == |order|
  {
    if order == [] then []
    else
      var p := procs[order[0]];
      var start := Max(clock, p.arrival);
      [RanWhole(p, start)] + Serve(procs, order[1..], start + p.burst)
  }

  /** The k-th served process starts at max(free time, arrival), runs for its
      burst, and its metrics agree, with waiting equal to response. */
  lemma {:induction false} ServeAt(procs: seq<Process>, order: seq<nat>, clock: int, k: nat)
    requires ValidInput(procs) && InBounds(order, |procs|) && k < |order|
    ensures var recs := Serve(procs, order, clock);
      && recs[k].process == procs[order[k]]
      && recs[k].start == Max(FreeAt(recs, k, clock), procs[order[k]].arrival)
      && recs[k].completion == recs[k].start + procs[order[k]].burst
      && MetricsHold(recs[k])
      && recs[k].waiting == recs[k].response
  {
    var recs := Serve(procs, order, clock);
    if k > 0 {
      var head := recs[0];
      var rest := Serve(procs, order[1..], head.completion);
      assert recs == [head] + rest;
      ServeAt(procs, order[1..], head.completion, k - 1);
      assert recs[k] == rest[k - 1];
      assert FreeAt(recs, k, clock) == FreeAt(rest, k - 1, head.completion);
    }
  }

  /** The FCFS timeline is ordered and non-overlapping. */
  lemma ServeWellFormed(procs: seq<Process>, order: seq<nat>, clock: int)
    requires ValidInput(procs) && InBounds(order, |procs|)
    ensures WellFormed(Timeline(Serve(procs, order, clock)))
  {
    var recs := Serve(procs, order, clock);
    var g := Timeline(recs);
    forall k | 0 <= k < |g| ensures g[k].start < g[k].end {
      ServeAt(procs, order, clock, k);
    }
    forall k | 0 <= k < |g| - 1 ensures g[k].end <= g[k + 1].start {
      ServeAt(procs, order, clock, k + 1);
    }
  }

  /** ServeAt for every position, and ServeWellFormed. */
  lemma ServeProperties(procs: seq<Process>, order: seq<nat>, clock: int)
    requires ValidInput(procs) && InBounds(order, |procs|)
    ensures var recs := Serve(procs, order, clock);
      && WellFormed(Timeline(recs))
      && forall k :: 0 <= k < |order| ==>
        && recs[k].process == procs[order[k]]
        && recs[k].start == Max(FreeAt(recs, k, clock), recs[k].process.arrival)
        && MetricsHold(recs[k])
        && recs[k].waiting == recs[k].response
  {
    forall k | 0 <= k < |order| {
      ServeAt(procs, order, clock, k);
    }
    ServeWellFormed(procs, order, clock);
  }

  /** When every process is served once and names are distinct, the timeline
      shows each process busy for exactly its burst time. */
  lemma ServeBusy(procs: seq<Process>, order: seq<nat>, clock: int)
    requires ValidInput(procs) && IsPermutation(order, |procs|) && DistinctNames(procs)
    ensures forall i :: 0 <= i < |procs| ==> Busy(Timeline(Serve(procs, order, clock)), procs[i].name) == procs[i].burst
  {
    var recs := Serve(procs, order, clock);
    forall i | 0 <= i < |procs| ensures Busy(Timeline(recs), procs[i].name) == procs[i].burst {
      DistinctBoundedCard(order, |procs|);
      var k := IndexOf(order, i);
      ServeAt(procs, order, clock, k);
      forall m | 0 <= m < |recs| && m != k ensures recs[m].process.name != recs[k].process.name {
        ServeAt(procs, order, clock, m);
      }
      TimelineBusy(recs, k);
    }
  }

  /** Two processes that arrive together are served in input order. */
  lemma {:induction false} FcfsTieKeepsInputOrder(procs: seq<Process>, i: nat, j: nat)
    requires ValidInput(procs)
    requires i < j < |procs| && procs[i].arrival == procs[j].arrival
    ensures var order := ArrivalOrder(procs);
      var recs := Serve(procs, order, 0);
      i in order && j in order
      && IndexOf(order, i) < IndexOf(order, j)
      && recs[IndexOf(order, i)].completion <= recs[IndexOf(order, j)].start
  {
    var order := ArrivalOrder(procs);
    ArrivalOrderSorted(procs);
    DistinctBoundedCard(order, |procs|);
    var ki, kj := IndexOf(order, i), IndexOf(order, j);
    assert ki != kj;
    if kj < ki {
      assert false;
    }
    ServeWellFormed(procs, order, 0);
    WellFormedNoOverlap(Timeline(Serve(procs, order, 0)), ki, kj);
  }

  /** The properties of serving every process in arrival order from time 0. */
  lemma FcfsServe(procs: seq<Process>)
    requires ValidInput(procs)
    ensures var recs := Serve(procs, ArrivalOrder(procs), 0);
      && WellFormed(Timeline(recs))
      && (forall k :: 0 <= k < |procs| ==>
        && recs[k].process == procs[ArrivalOrder(procs)[k]]
        && recs[k].start == Max(FreeAt(recs, k, 0), recs[k].process.arrival)
        && MetricsHold(recs[k])
        && recs[k].waiting == recs[k].response)
      && (DistinctNames(procs) ==> forall i :: 0 <= i < |procs| ==> Busy(Timeline(recs), procs[i].name) == procs[i].burst)
  {
    ServeProperties(procs, ArrivalOrder(procs), 0);
    ArrivalOrderSorted(procs);
    if DistinctNames(procs) {
      ServeBusy(procs, ArrivalOrder(procs), 0);
    }
  }

  /** The loop of fcfsScheduling: serve the processes at the positions
      `order` one after another from time 0, drawing the chart as it goes. */
  method ServeInOrder(procs: seq<Process>, order: seq<nat>) returns (result: seq<ProcResult>, gantt: seq<Segment>)
    requires ValidInput(procs) && InBounds(order, |procs|)
    ensures result == Serve(procs, order, 0)
    ensures gantt == Timeline(result)
  {
    ghost var recs := Serve(procs, order, 0);
    gantt := [];
    var clock := 0;
    result := [];
    for k := 0 to |order|
      invariant result == recs[..k]
      invariant clock == FreeAt(recs, k, 0)
      invariant gantt == Timeline(result)
    {
      var p := procs[order[k]];
      var start := Max(clock, p.arrival);
      var completion := start + p.burst;
      gantt := gantt + [Segment(p.name, start, completion)];
      var rec := ProcResult(p, start, completion, completion - p.arrival, start - p.arrival, start - p.arrival);
      ServeAt(procs, order, 0, k);
      assert rec == recs[k];
      assert recs[..k + 1] == result + [rec];
      TimelineAppend(result, rec);
      clock := completion;
      result := result + [rec];
    }
    assert recs[..|order|] == recs;
  }

  /** fcfsScheduling */
  method Fcfs(procs: seq<Process>) returns (r: Schedule)
    requires ValidInput(procs)
    ensures r.processes == Serve(procs, ArrivalOrder(procs), 0)
    ensures r.gantt == Timeline(r.processes)
    ensures |r.processes| == |procs|
    ensures forall k :: 0 <= k < |procs| ==>
      && r.processes[k].process == procs[ArrivalOrder(procs)[k]]
      && r.processes[k].start == Max(FreeAt(r.processes, k, 0), r.processes[k].process.arrival)
      && MetricsHold(r.processes[k])
      && r.processes[k].waiting == r.processes[k].response
    ensures WellFormed(r.gantt)
    ensures DistinctNames(procs) ==> forall i :: 0 <= i < |procs| ==> Busy(r.gantt, procs[i].name) == procs[i].burst
  {
    var sorted := ArrivalOrder(procs);
    var result, gantt := ServeInOrder(procs, sorted);
    FcfsServe(procs);
    r := Schedule(result, gantt);
  }
}
