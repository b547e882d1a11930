/** Round Robin (`roundRobinScheduling`): a FIFO ready queue of processes fed
    from the arrival-sorted order; each dispatch gives the head of the queue
    at most one quantum, as one Gantt segment. Processes are referred to by
    their input position, which stands for the id the source keys its map
    and its queue by. */
module RoundRobinEngine {
  import opened SchedTypes
  import opened Sorting
  import opened Gantt
  import opened FcfsEngine

  /** One dispatch: process `who` held the CPU during [start, end). */
  datatype Slice = Slice(who: nat, start: int, end: int)

  /** The dispatches so far, oldest first. */
  type Log = seq<Slice>

  predicate Indexed(log: Log, n: nat) {
    forall k :: 0 <= k < |log| ==> log[k].who < n
  }

  /** The Gantt chart of a log: one segment per dispatch. */
  function ChartOf(procs: seq<Process>, log: Log): (g: seq<Segment>)
    requires Indexed(log, |procs|)
    ensures |g| == |log|
    ensures forall k :: 0 <= k < |log| ==> g[k] == Segment(procs[log[k].who].name, log[k].start, log[k].end)
  {
    seq(|log|, k requires 0 <= k < |log| => Segment(procs[log[k].who].name, log[k].start, log[k].end))
  }

  /** Every segment of the chart lasts at least one unit and at most one quantum. */
  predicate QuantumBounded(g: seq<Segment>, quantum: int) {
    forall k :: 0 <= k < |g| ==> 1 <= g[k].end - g[k].start <= quantum
  }

  /** Total time process j has held the CPU. */
  function Served(log: Log, j: nat): int {
    if log == [] then 0
    else
      var s := log[|log| - 1];
      Served(log[..|log| - 1], j) + (if s.who == j then s.end - s.start else 0)
  }

  /** When process j was first dispatched, if ever. */
  function FirstStart(log: Log, j: nat): Option<int> {
    if log == [] then None
    else
      var f := FirstStart(log[..|log| - 1], j);
      if f.Some? then f
      else if log[|log| - 1].who == j then Some(log[|log| - 1].start)
      else None
  }

  /** When process j last gave the CPU up, if ever. */
  function LastEnd(log: Log, j: nat): Option<int> {
    if log == [] then None
    else if log[|log| - 1].who == j then Some(log[|log| - 1].end)
    else LastEnd(log[..|log| - 1], j)
  }

  /** When the CPU became free: the end of the last dispatch, 0 before any. */
  function FreeAfter(log: Log): int {
    if log == [] then 0 else log[|log| - 1].end
  }

  /** Dispatch k starts when the CPU is free or, if later, when its process
      arrives, and lasts the smaller of the quantum and the time the process
      still needed; that time was positive. */
  predicate SliceOK(procs: seq<Process>, quantum: int, log: Log, k: nat)
    requires k < |log|
  {
    var s := log[k];
    && s.who < |procs|
    && Served(log[..k], s.who) < procs[s.who].burst
    && s.start == Max(FreeAfter(log[..k]), procs[s.who].arrival)
    && s.end == s.start + Min(quantum, procs[s.who].burst - Served(log[..k], s.who))
  }

  predicate LogOK(procs: seq<Process>, quantum: int, log: Log) {
    && Indexed(log, |procs|)
    && forall k :: 0 <= k < |log| ==> SliceOK(procs, quantum, log, k)
  }

  /** Every dispatch is valid and every process received its whole burst. */
  predicate Complete(procs: seq<Process>, quantum: int, log: Log) {
    && LogOK(procs, quantum, log)
    && forall j :: 0 <= j < |procs| ==> Served(log, j) == procs[j].burst
  }

  /** A complete Round Robin log: a complete log in which every dispatch
      serves the head of the ready queue. */
  predicate RrLog(procs: seq<Process>, quantum: int, log: Log) {
    Complete(procs, quantum, log) && FifoLog(procs, ArrivalOrder(procs), log)
  }

  /** The per-process results a log determines, in input order: started at
      the first dispatch, completed at the end of the last. */
  predicate ResultOfLog(procs: seq<Process>, log: Log, recs: seq<ProcResult>) {
    && |recs| == |procs|
    && forall i :: 0 <= i < |procs| ==>
         && FirstStart(log, i).Some? && LastEnd(log, i).Some?
         && recs[i] == Finished(procs[i], FirstStart(log, i).value, LastEnd(log, i).value)
  }

  /** How the log functions move when one more dispatch is recorded. */
  lemma LogAppend(log: Log, s: Slice, j: nat)
    ensures (log + [s])[..|log|] == log
    ensures Served(log + [s], j) == Served(log, j) + (if s.who == j then s.end - s.start else 0)
    ensures FirstStart(log + [s], j) ==
      if FirstStart(log, j).Some? then FirstStart(log, j) else if s.who == j then Some(s.start) else None
    ensures LastEnd(log + [s], j) == if s.who == j then Some(s.end) else LastEnd(log, j)
    ensures FreeAfter(log + [s]) == s.end
  {
    assert (log + [s])[..|log|] == log;
  }

  /** A valid dispatch appended to a valid log gives a valid log. */
  lemma LogOKAppend(procs: seq<Process>, quantum: int, log: Log, s: Slice)
    requires LogOK(procs, quantum, log)
    requires s.who < |procs| && Served(log, s.who) < procs[s.who].burst
    requires s.start == Max(FreeAfter(log), procs[s.who].arrival)
    requires s.end == s.start + Min(quantum, procs[s.who].burst - Served(log, s.who))
    ensures LogOK(procs, quantum, log + [s])
  {
    var l2 := log + [s];
    forall k | 0 <= k < |l2| ensures SliceOK(procs, quantum, l2, k) {
      assert l2[..k] == if k < |log| then log[..k] else log;
      if k < |log| {
        assert SliceOK(procs, quantum, log, k);
      }
    }
  }

  /** In a valid log, each process is served between 0 and its burst; it has
      a first start and a last end exactly when it has been served; it starts
      no earlier than its arrival; and its dispatches fit, in order, between
      its first start and its last end, which is no later than the CPU became
      free. */
  lemma {:induction false} LogSpan(procs: seq<Process>, quantum: int, log: Log, j: nat)
    requires ValidInput(procs) && quantum >= 1 && LogOK(procs, quantum, log) && j < |procs|
    ensures 0 <= Served(log, j) <= procs[j].burst
    ensures FreeAfter(log) >= 0
    ensures FirstStart(log, j).Some? <==> Served(log, j) > 0
    ensures LastEnd(log, j).Some? <==> FirstStart(log, j).Some?
    ensures FirstStart(log, j).Some? ==>
      && procs[j].arrival <= FirstStart(log, j).value
      && FirstStart(log, j).value + Served(log, j) <= LastEnd(log, j).value <= FreeAfter(log)
  {
    if log != [] {
      var m := |log| - 1;
      var init, s := log[..m], log[m];
      assert log == init + [s];
      assert LogOK(procs, quantum, init) by {
        forall k | 0 <= k < |init| ensures SliceOK(procs, quantum, init, k) {
          assert init[..k] == log[..k];
          assert SliceOK(procs, quantum, log, k);
        }
      }
      LogSpan(procs, quantum, init, j);
      LogSpan(procs, quantum, init, s.who);
      assert SliceOK(procs, quantum, log, m);
      LogAppend(init, s, j);
    }
  }

  /** With distinct names, the chart shows each process busy exactly for the
      time it was served. */
  lemma {:induction false} LogBusy(procs: seq<Process>, log: Log, j: nat)
    requires Indexed(log, |procs|) && DistinctNames(procs) && j < |procs|
    ensures Busy(ChartOf(procs, log), procs[j].name) == Served(log, j)
  {
    if log != [] {
      var m := |log| - 1;
      assert Indexed(log[..m], |procs|);
      assert ChartOf(procs, log)[..m] == ChartOf(procs, log[..m]);
      LogBusy(procs, log[..m], j);
    }
  }

  /** The chart of a valid log is ordered and non-overlapping, and every
      segment lasts between 1 and `quantum` units and starts no earlier than
      the arrival of the process it shows. */
  lemma LogChart(procs: seq<Process>, quantum: int, log: Log)
    requires ValidInput(procs) && quantum >= 1 && LogOK(procs, quantum, log)
    ensures WellFormed(ChartOf(procs, log))
    ensures forall k :: 0 <= k < |log| ==>
      && 1 <= log[k].end - log[k].start <= quantum
      && procs[log[k].who].arrival <= log[k].start
  {
    var g := ChartOf(procs, log);
    forall k | 0 <= k < |log|
      ensures 1 <= log[k].end - log[k].start <= quantum && procs[log[k].who].arrival <= log[k].start
    {
      assert SliceOK(procs, quantum, log, k);
    }
    forall k | 0 <= k < |log| - 1 ensures g[k].end <= g[k + 1].start {
      assert SliceOK(procs, quantum, log, k + 1);
      assert log[..k + 1][k] == log[k];
    }
  }

  /** A process no dispatch names has not been served. */
  lemma {:induction false} ServedAbsent(log: Log, j: nat)
    requires forall k :: 0 <= k < |log| ==> log[k].who != j
    ensures Served(log, j) == 0
  {
    if log != [] {
      ServedAbsent(log[..|log| - 1], j);
    }
  }

  /** Every burst fits in one quantum. */
  predicate AllFit(procs: seq<Process>, quantum: int) {
    forall j :: 0 <= j < |procs| ==> procs[j].burst <= quantum
  }

  /** `sorted` lists every process once, by arrival. */
  predicate ArrivalSorted(procs: seq<Process>, sorted: seq<nat>) {
    && IsPermutation(sorted, |procs|)
    && forall k, m :: 0 <= k < m < |sorted| ==> procs[sorted[k]].arrival <= procs[sorted[m]].arrival
  }

  /** When every burst fits in one quantum, a valid log that dispatches the
      processes in the order `order` is the FCFS schedule of that order. */
  lemma {:induction false} FitLogIsServe(procs: seq<Process>, quantum: int, order: seq<nat>, log: Log, k: nat)
    requires ValidInput(procs) && LogOK(procs, quantum, log) && AllFit(procs, quantum)
    requires IsPermutation(order, |procs|) && |log| == |procs|
    requires forall m :: 0 <= m < |log| ==> log[m].who == order[m]
    requires k < |log|
    ensures var recs := Serve(procs, order, 0);
      log[k].start == recs[k].start && log[k].end == recs[k].completion
  {
    var recs := Serve(procs, order, 0);
    ServeAt(procs, order, 0, k);
    if k > 0 {
      FitLogIsServe(procs, quantum, order, log, k - 1);
    }
    assert FreeAfter(log[..k]) == FreeAt(recs, k, 0) by {
      if k > 0 {
        assert log[..k][k - 1] == log[k - 1];
      }
    }
    assert SliceOK(procs, quantum, log, k);
    ServedAbsent(log[..k], order[k]);
  }

  /** The chart of such a log is the FCFS timeline of that order. */
  lemma {:induction false} FitChartIsTimeline(procs: seq<Process>, quantum: int, order: seq<nat>, log: Log)
    requires ValidInput(procs) && LogOK(procs, quantum, log) && AllFit(procs, quantum)
    requires IsPermutation(order, |procs|) && |log| == |procs|
    requires forall m :: 0 <= m < |log| ==> log[m].who == order[m]
    ensures ChartOf(procs, log) == Timeline(Serve(procs, order, 0))
  {
    var recs := Serve(procs, order, 0);
    forall k | 0 <= k < |log| ensures ChartOf(procs, log)[k] == Timeline(recs)[k] {
      FitLogIsServe(procs, quantum, order, log, k);
      ServeAt(procs, order, 0, k);
    }
  }

  // Which process each dispatch serves: the ready queue, replayed from the log.

  /** The ready queue (process positions, head first) and how many entries of
      the arrival-sorted list have been admitted. */
  datatype Queue = Queue(waiting: seq<nat>, next: nat)

  /** Admission by the time `clock`: the index of the first entry of
      sorted[next..] that has not arrived by then, every entry before it
      being taken in order. */
  function AdmitFrom(procs: seq<Process>, sorted: seq<nat>, next: nat, clock: int): (r: nat)
    requires InBounds(sorted, |procs|) && next <= |sorted|
    ensures next <= r <= |sorted|
    ensures forall m :: next <= m < r ==> procs[sorted[m]].arrival <= clock
    ensures r == |sorted| || clock < procs[sorted[r]].arrival
    decreases |sorted| - next
  {
    if next < |sorted| && procs[sorted[next]].arrival <= clock then AdmitFrom(procs, sorted, next + 1, clock)
    else next
  }

  /** The stopping index of an admission determines it: AdmitFrom is the only
      index with the properties its contract states. */
  lemma {:induction false} AdmitFromUnique(procs: seq<Process>, sorted: seq<nat>, next: nat, next2: nat, clock: int)
    requires InBounds(sorted, |procs|) && next <= next2 <= |sorted|
    requires forall m :: next <= m < next2 ==> procs[sorted[m]].arrival <= clock
    requires next2 == |sorted| || clock < procs[sorted[next2]].arrival
    ensures AdmitFrom(procs, sorted, next, clock) == next2
    decreases next2 - next
  {
    if next < next2 {
      AdmitFromUnique(procs, sorted, next + 1, next2, clock);
    }
  }

  /** With an empty queue and processes still to come, only the next one in
      arrival order is admitted (the clock jumps to its arrival). */
  function Jump(sorted: seq<nat>, q: Queue): Queue {
    if q.waiting == [] && q.next < |sorted| then Queue([sorted[q.next]], q.next + 1) else q
  }

  /** The queue after the dispatches of `log`: initially the processes that
      arrived by 0; each dispatch takes the head of the queue (after a jump
      when it was empty), admits the processes that arrived by the end of the
      slice, and then puts the head back at the tail if it still needs time. */
  function Replay(procs: seq<Process>, sorted: seq<nat>, log: Log): (q: Queue)
    requires InBounds(sorted, |procs|)
    ensures q.next <= |sorted| && InBounds(q.waiting, |procs|)
  {
    if log == [] then
      var n := AdmitFrom(procs, sorted, 0, 0);
      Queue(sorted[..n], n)
    else
      var s := log[|log| - 1];
      var p := Jump(sorted, Replay(procs, sorted, log[..|log| - 1]));
      if p.waiting == [] then p
      else
        var h := p.waiting[0];
        var n := AdmitFrom(procs, sorted, p.next, s.end);
        var again := if Served(log, h) < procs[h].burst then [h] else [];
        InBoundsJoin(p.waiting[1..], sorted[p.next..n], again, |procs|);
        Queue(p.waiting[1..] + sorted[p.next..n] + again, n)
  }

  lemma InBoundsJoin(a: seq<nat>, b: seq<nat>, c: seq<nat>, n: nat)
    requires InBounds(a, n) && InBounds(b, n) && InBounds(c, n)
    ensures InBounds(a + b + c, n)
  {
  }

  /** The process the next dispatch must serve, if the queue is not empty. */
  function Head(procs: seq<Process>, sorted: seq<nat>, log: Log): Option<nat>
    requires InBounds(sorted, |procs|)
  {
    var p := Jump(sorted, Replay(procs, sorted, log));
    if p.waiting == [] then None else Some(p.waiting[0])
  }

  /** Every dispatch serves the head of the ready queue. */
  predicate FifoLog(procs: seq<Process>, sorted: seq<nat>, log: Log)
    requires InBounds(sorted, |procs|)
  {
    log == [] ||
      var init := log[..|log| - 1];
      FifoLog(procs, sorted, init) && Head(procs, sorted, init) == Some(log[|log| - 1].who)
  }

  /** In a log where every dispatch serves the head of the queue, dispatch k
      serves the head of the queue left by the dispatches before it. */
  lemma {:induction false} FifoLogAt(procs: seq<Process>, sorted: seq<nat>, log: Log, k: nat)
    requires InBounds(sorted, |procs|) && FifoLog(procs, sorted, log) && k < |log|
    ensures Head(procs, sorted, log[..k]) == Some(log[k].who)
  {
    var n := |log| - 1;
    var init := log[..n];
    assert FifoLog(procs, sorted, init) && Head(procs, sorted, init) == Some(log[n].who);
    if k < n {
      FifoLogAt(procs, sorted, init, k);
      assert init[..k] == log[..k] && init[k] == log[k];
    } else {
      assert init == log[..k];
    }
  }

  /** Two complete logs that agree on their first k dispatches agree on
      dispatch k: the head of the queue, its start and its length are forced. */
  lemma SlicesAgree(procs: seq<Process>, quantum: int, l1: Log, l2: Log, k: nat)
    requires RrLog(procs, quantum, l1) && RrLog(procs, quantum, l2)
    requires k < |l1| && k < |l2| && l1[..k] == l2[..k]
    ensures l1[k] == l2[k]
  {
    assert SliceOK(procs, quantum, l1, k) && SliceOK(procs, quantum, l2, k);
    var sorted := ArrivalOrder(procs);
    FifoLogAt(procs, sorted, l1, k);
    FifoLogAt(procs, sorted, l2, k);
  }

  lemma {:induction false} SlicesAgreeUpTo(procs: seq<Process>, quantum: int, l1: Log, l2: Log, k: nat)
    requires RrLog(procs, quantum, l1) && RrLog(procs, quantum, l2)
    requires k <= |l1| && k <= |l2|
    ensures l1[..k] == l2[..k]
  {
    if k > 0 {
      SlicesAgreeUpTo(procs, quantum, l1, l2, k - 1);
      SlicesAgree(procs, quantum, l1, l2, k - 1);
      PrefixExtend(l1, l2, k);
    }
  }

  lemma PrefixExtend(l1: Log, l2: Log, k: nat)
    requires 0 < k <= |l1| && k <= |l2|
    requires l1[..k - 1] == l2[..k - 1] && l1[k - 1] == l2[k - 1]
    ensures l1[..k] == l2[..k]
  {
    assert l1[..k] == l1[..k - 1] + [l1[k - 1]] && l2[..k] == l2[..k - 1] + [l2[k - 1]];
  }

  /** A complete log that is no longer than another is that log: once every
      burst is served no dispatch is valid. */
  lemma {:induction false} ShorterLogIsSame(procs: seq<Process>, quantum: int, l1: Log, l2: Log)
    requires RrLog(procs, quantum, l1) && RrLog(procs, quantum, l2)
    requires |l1| <= |l2|
    ensures l1 == l2
  {
    SlicesAgreeUpTo(procs, quantum, l1, l2, |l1|);
    assert l2[..|l1|] == l1;
    PendingAt(procs, quantum, l2);
    assert |l2| == |l1|;
  }

  /** Every dispatch of a valid log serves a process that still needed time. */
  lemma PendingAt(procs: seq<Process>, quantum: int, log: Log)
    requires LogOK(procs, quantum, log)
    ensures forall k :: 0 <= k < |log| ==>
      log[k].who < |procs| && Served(log[..k], log[k].who) < procs[log[k].who].burst
  {
    forall k | 0 <= k < |log|
      ensures log[k].who < |procs| && Served(log[..k], log[k].who) < procs[log[k].who].burst
    {
      assert SliceOK(procs, quantum, log, k);
    }
  }

  /** The queue discipline leaves no choice: there is at most one complete
      Round Robin log. */
  lemma RrLogUnique(procs: seq<Process>, quantum: int, l1: Log, l2: Log)
    requires RrLog(procs, quantum, l1) && RrLog(procs, quantum, l2)
    ensures l1 == l2
  {
    if |l1| <= |l2| {
      ShorterLogIsSame(procs, quantum, l1, l2);
    } else {
      ShorterLogIsSame(procs, quantum, l2, l1);
    }
  }

  /** P1 (arrival 0, burst 5) and P2 (arrival 1, burst 3) with quantum 2:
      the log that serves P1 to the end in chunks of 2 before P2 is complete,
      every one of its dispatches being valid, but it is not a Round Robin
      log, since after the first dispatch P2 is at the head of the queue. */
  lemma TwoProcessExample()
    ensures var procs := [Process("1", "P1", 0, 5, None), Process("2", "P2", 1, 3, None)];
      && Complete(procs, 2, [Slice(0, 0, 2), Slice(0, 2, 4), Slice(0, 4, 5), Slice(1, 5, 7), Slice(1, 7, 8)])
      && !RrLog(procs, 2, [Slice(0, 0, 2), Slice(0, 2, 4), Slice(0, 4, 5), Slice(1, 5, 7), Slice(1, 7, 8)])
  {
    var procs := [Process("1", "P1", 0, 5, None), Process("2", "P2", 1, 3, None)];
    var sorted := ExampleOrder(procs);
    ExampleChunkValid(procs);
    ExampleChunkNotFifo(procs, sorted);
  }

  /** ReplayStep for a dispatch of the head of a non-empty replayed queue. */
  lemma ExampleFifoStep(procs: seq<Process>, sorted: seq<nat>, log: Log, queue: seq<nat>, next: nat,
                        s: Slice, left: int, queue2: seq<nat>, next2: nat) returns (log2: Log)
    requires InBounds(sorted, |procs|) && FifoAt(procs, sorted, log, Queue(queue, next))
    requires queue != [] && s.who == queue[0] && s.who < |procs|
    requires next <= next2 <= |sorted|
    requires forall m :: next <= m < next2 ==> procs[sorted[m]].arrival <= s.end
    requires next2 == |sorted| || s.end < procs[sorted[next2]].arrival
    requires left == procs[s.who].burst - Served(log, s.who) - (s.end - s.start)
    requires queue2 == queue[1..] + sorted[next..next2] + (if left > 0 then [s.who] else [])
    ensures log2 == log + [s] && FifoAt(procs, sorted, log2, Queue(queue2, next2))
    ensures forall j :: Served(log2, j) == Served(log, j) + (if s.who == j then s.end - s.start else 0)
  {
    FifoJumped(procs, sorted, log, Queue(queue, next));
    ReplayStep(procs, sorted, log, queue, next, s, left, queue2, next2);
    log2 := log + [s];
    forall j ensures Served(log2, j) == Served(log, j) + (if s.who == j then s.end - s.start else 0) {
      LogAppend(log, s, j);
    }
  }

  lemma ExampleChunkValid(procs: seq<Process>)
    requires procs == [Process("1", "P1", 0, 5, None), Process("2", "P2", 1, 3, None)]
    ensures Complete(procs, 2, [Slice(0, 0, 2), Slice(0, 2, 4), Slice(0, 4, 5), Slice(1, 5, 7), Slice(1, 7, 8)])
  {
    var l1 := ExampleValidStep(procs, [], Slice(0, 0, 2));
    var l2 := ExampleValidStep(procs, l1, Slice(0, 2, 4));
    var l3 := ExampleValidStep(procs, l2, Slice(0, 4, 5));
    var l4 := ExampleValidStep(procs, l3, Slice(1, 5, 7));
    var l5 := ExampleValidStep(procs, l4, Slice(1, 7, 8));
    assert l5 == [Slice(0, 0, 2), Slice(0, 2, 4), Slice(0, 4, 5), Slice(1, 5, 7), Slice(1, 7, 8)];
  }

  /** LogOKAppend with quantum 2, together with the new service times. */
  lemma ExampleValidStep(procs: seq<Process>, log: Log, s: Slice) returns (log2: Log)
    requires LogOK(procs, 2, log)
    requires s.who < |procs| && Served(log, s.who) < procs[s.who].burst
    requires s.start == Max(FreeAfter(log), procs[s.who].arrival)
    requires s.end == s.start + Min(2, procs[s.who].burst - Served(log, s.who))
    ensures log2 == log + [s] && LogOK(procs, 2, log2) && FreeAfter(log2) == s.end
    ensures forall j :: Served(log2, j) == Served(log, j) + (if s.who == j then s.end - s.start else 0)
  {
    LogOKAppend(procs, 2, log, s);
    log2 := log + [s];
    forall j ensures Served(log2, j) == Served(log, j) + (if s.who == j then s.end - s.start else 0) {
      LogAppend(log, s, j);
    }
  }

  lemma ExampleChunkNotFifo(procs: seq<Process>, sorted: seq<nat>)
    requires procs == [Process("1", "P1", 0, 5, None), Process("2", "P2", 1, 3, None)] && sorted == [0, 1]
    ensures !FifoLog(procs, sorted, [Slice(0, 0, 2), Slice(0, 2, 4), Slice(0, 4, 5), Slice(1, 5, 7), Slice(1, 7, 8)])
  {
    var chunk := [Slice(0, 0, 2), Slice(0, 2, 4), Slice(0, 4, 5), Slice(1, 5, 7), Slice(1, 7, 8)];
    FifoInit(procs, sorted, [0], 1);
    var l1 := ExampleFifoStep(procs, sorted, [], [0], 1, chunk[0], 3, [1, 0], 2);
    assert Head(procs, sorted, l1) == Some(1);
    assert chunk[..2] == l1 + [chunk[1]] && (l1 + [chunk[1]])[..1] == l1;
    FifoLogPrefix(procs, sorted, chunk, 2);
  }

  /** The arrival order of the example: P1, then P2. */
  lemma ExampleOrder(procs: seq<Process>) returns (sorted: seq<nat>)
    requires procs == [Process("1", "P1", 0, 5, None), Process("2", "P2", 1, 3, None)]
    ensures sorted == ArrivalOrder(procs) == [0, 1]
  {
    sorted := ArrivalOrder(procs);
    ArrivalOrderSorted(procs);
    assert procs[sorted[0]].arrival <= procs[sorted[1]].arrival && sorted[0] != sorted[1];
  }

  /** Every prefix of a log that serves the head of the queue does so too. */
  lemma {:induction false} FifoLogPrefix(procs: seq<Process>, sorted: seq<nat>, log: Log, k: nat)
    requires InBounds(sorted, |procs|) && k <= |log|
    ensures FifoLog(procs, sorted, log) ==> FifoLog(procs, sorted, log[..k])
  {
    if k < |log| {
      var init := log[..|log| - 1];
      FifoLogPrefix(procs, sorted, init, k);
      assert init[..k] == log[..k];
    } else {
      assert log[..k] == log;
    }
  }

  /** The loop state at its head: `q` is the replayed queue, and every
      dispatch so far served the head of the queue. */
  predicate FifoAt(procs: seq<Process>, sorted: seq<nat>, log: Log, q: Queue)
    requires InBounds(sorted, |procs|)
  {
    Replay(procs, sorted, log) == q && FifoLog(procs, sorted, log)
  }

  /** The state just before a dispatch: `q` is the replayed queue after the
      jump, if there was one. */
  predicate FifoNext(procs: seq<Process>, sorted: seq<nat>, log: Log, q: Queue)
    requires InBounds(sorted, |procs|)
  {
    Jump(sorted, Replay(procs, sorted, log)) == q && FifoLog(procs, sorted, log)
  }

  /** The initial admission is the queue Replay starts from. */
  lemma FifoInit(procs: seq<Process>, sorted: seq<nat>, queue: seq<nat>, next: nat)
    requires InBounds(sorted, |procs|) && next <= |sorted|
    requires queue == [] + sorted[0..next] && next == AdmitFrom(procs, sorted, 0, 0)
    ensures FifoAt(procs, sorted, [], Queue(queue, next))
  {
    assert queue == sorted[..next];
  }

  lemma FifoJumped(procs: seq<Process>, sorted: seq<nat>, log: Log, q: Queue)
    requires InBounds(sorted, |procs|) && FifoAt(procs, sorted, log, q)
    ensures FifoNext(procs, sorted, log, Jump(sorted, q))
  {
  }

  /** Recording a dispatch of the head of the queue, then admitting up to
      `next2` and re-queueing the head when it still needs time (`left` > 0),
      is what Replay says, and keeps every dispatch at the head of the queue. */
  lemma ReplayStep(procs: seq<Process>, sorted: seq<nat>, log: Log, queue: seq<nat>, next: nat,
                   s: Slice, left: int, queue2: seq<nat>, next2: nat)
    requires InBounds(sorted, |procs|) && FifoNext(procs, sorted, log, Queue(queue, next))
    requires queue != [] && s.who == queue[0] && s.who < |procs|
    requires next <= next2 <= |sorted|
    requires forall m :: next <= m < next2 ==> procs[sorted[m]].arrival <= s.end
    requires next2 == |sorted| || s.end < procs[sorted[next2]].arrival
    requires left == procs[s.who].burst - Served(log, s.who) - (s.end - s.start)
    requires queue2 == queue[1..] + sorted[next..next2] + (if left > 0 then [s.who] else [])
    ensures FifoAt(procs, sorted, log + [s], Queue(queue2, next2))
  {
    var l2 := log + [s];
    LogAppend(log, s, s.who);
    assert l2[..|l2| - 1] == log && l2[|l2| - 1] == s;
    AdmitFromUnique(procs, sorted, next, next2, s.end);
  }

  // The loop of roundRobinScheduling.

  /** The admission loop: push onto the ready queue, in arrival order, every
      not yet admitted process that has arrived by `clock`. */
  method Admit(procs: seq<Process>, sorted: seq<nat>, queue: seq<nat>, next: nat, clock: int)
    returns (queue2: seq<nat>, next2: nat)
    requires InBounds(sorted, |procs|) && next <= |sorted|
    ensures next <= next2 <= |sorted|
    ensures queue2 == queue + sorted[next..next2]
    ensures forall m :: next <= m < next2 ==> procs[sorted[m]].arrival <= clock
    ensures next2 == |sorted| || clock < procs[sorted[next2]].arrival
    ensures next2 == AdmitFrom(procs, sorted, next, clock)
  {
    queue2, next2 := queue, next;
    while next2 < |sorted| && procs[sorted[next2]].arrival <= clock
      invariant next <= next2 <= |sorted|
      invariant queue2 == queue + sorted[next..next2]
      invariant forall m :: next <= m < next2 ==> procs[sorted[m]].arrival <= clock
    {
      assert sorted[next..next2 + 1] == sorted[next..next2] + [sorted[next2]];
      queue2 := queue2 + [sorted[next2]];
      next2 := next2 + 1;
    }
    AdmitFromUnique(procs, sorted, next, next2, clock);
  }

  /** The queue holds, once each, exactly the admitted processes that still
      need time; every admitted process has arrived by `clock`. */
  predicate QueueOK(procs: seq<Process>, sorted: seq<nat>, ws: seq<Work>, queue: seq<nat>, next: nat, clock: int) {
    && |ws| == |procs| == |sorted| && next <= |sorted|
    && InBounds(sorted, |procs|) && InBounds(queue, |procs|) && Distinct(queue)
    && (forall j :: 0 <= j < |procs| ==> (j in queue <==> j in sorted[..next] && ws[j].remaining > 0))
    && (forall m :: 0 <= m < next ==> procs[sorted[m]].arrival <= clock)
  }

  /** Each working copy holds its process, the time it still needs and its
      first dispatch; a process not admitted yet has not been served. */
  predicate WorkOK(procs: seq<Process>, sorted: seq<nat>, next: nat, ws: seq<Work>, log: Log) {
    && |ws| == |procs| && next <= |sorted|
    && forall j :: 0 <= j < |procs| ==>
         && ws[j].process == procs[j]
         && 0 <= ws[j].remaining == procs[j].burst - Served(log, j)
         && ws[j].start == FirstStart(log, j)
         && (j !in sorted[..next] ==> Served(log, j) == 0)
  }

  /** `completed` holds, in completion order `done`, the record of every
      process that has received its whole burst. */
  predicate DoneOK(procs: seq<Process>, log: Log, completed: seq<ProcResult>, done: seq<nat>) {
    && InBounds(done, |procs|) && |completed| == |done|
    && Distinct(done)
    && (forall j :: 0 <= j < |procs| ==> (j in done <==> Served(log, j) == procs[j].burst))
    && (forall k :: 0 <= k < |done| ==>
          && FirstStart(log, done[k]).Some? && LastEnd(log, done[k]).Some?
          && completed[k] == Finished(procs[done[k]], FirstStart(log, done[k]).value, LastEnd(log, done[k]).value))
  }

  /** When every burst fits in one quantum, the processes are dispatched in
      arrival order and the queue holds the admitted, undispatched ones. */
  predicate FitOK(procs: seq<Process>, quantum: int, sorted: seq<nat>, queue: seq<nat>, next: nat, log: Log) {
    AllFit(procs, quantum) ==>
      && |log| <= next <= |sorted|
      && (forall k :: 0 <= k < |log| ==> log[k].who == sorted[k])
      && queue == sorted[|log|..next]
  }

  /** What holds both at the head of the loop and just before a dispatch. */
  predicate Common(procs: seq<Process>, quantum: int, sorted: seq<nat>, ws: seq<Work>, queue: seq<nat>, next: nat,
                   clock: int, log: Log, gantt: seq<Segment>, completed: seq<ProcResult>, done: seq<nat>)
  {
    && ArrivalSorted(procs, sorted)
    && LogOK(procs, quantum, log)
    && gantt == ChartOf(procs, log)
    && QueueOK(procs, sorted, ws, queue, next, clock)
    && WorkOK(procs, sorted, next, ws, log)
    && DoneOK(procs, log, completed, done)
    && FitOK(procs, quantum, sorted, queue, next, log)
  }

  /** The loop state at its head: the CPU became free at `clock`, and every
      process not admitted yet arrives later. */
  predicate RrState(procs: seq<Process>, quantum: int, sorted: seq<nat>, ws: seq<Work>, queue: seq<nat>, next: nat,
                    clock: int, log: Log, gantt: seq<Segment>, completed: seq<ProcResult>, done: seq<nat>)
  {
    && Common(procs, quantum, sorted, ws, queue, next, clock, log, gantt, completed, done)
    && clock == FreeAfter(log)
    && (next < |sorted| ==> clock < procs[sorted[next]].arrival)
  }

  /** The state just before a dispatch: the queue is not empty and `clock` is
      when its head can start. */
  predicate DispatchReady(procs: seq<Process>, quantum: int, sorted: seq<nat>, ws: seq<Work>, queue: seq<nat>, next: nat,
                  clock: int, log: Log, gantt: seq<Segment>, completed: seq<ProcResult>, done: seq<nat>)
  {
    && Common(procs, quantum, sorted, ws, queue, next, clock, log, gantt, completed, done)
    && queue != []
    && clock == Max(FreeAfter(log), procs[queue[0]].arrival)
  }

  /** The working copies before the first dispatch. */
  predicate Fresh(procs: seq<Process>, ws: seq<Work>) {
    && |ws| == |procs|
    && forall j :: 0 <= j < |procs| ==> ws[j] == Work(procs[j], procs[j].burst, None)
  }

  /** The initial admission establishes the loop state. */
  lemma RrInit(procs: seq<Process>, quantum: int, sorted: seq<nat>, ws: seq<Work>, queue: seq<nat>, next: nat)
    requires ValidInput(procs) && ArrivalSorted(procs, sorted) && Fresh(procs, ws)
    requires next <= |sorted| && queue == sorted[..next]
    requires forall m :: 0 <= m < next ==> procs[sorted[m]].arrival <= 0
    requires next == |sorted| || 0 < procs[sorted[next]].arrival
    ensures RrState(procs, quantum, sorted, ws, queue, next, 0, [], [], [], [])
  {
    assert queue == sorted[0..next];
  }

  /** With a non-empty queue at the head of the loop, the head has arrived,
      so it can start at once. */
  lemma RrQueued(procs: seq<Process>, quantum: int, sorted: seq<nat>, ws: seq<Work>, queue: seq<nat>, next: nat,
                 clock: int, log: Log, gantt: seq<Segment>, completed: seq<ProcResult>, done: seq<nat>)
    requires RrState(procs, quantum, sorted, ws, queue, next, clock, log, gantt, completed, done)
    requires queue != []
    ensures DispatchReady(procs, quantum, sorted, ws, queue, next, clock, log, gantt, completed, done)
  {
    assert queue[0] in queue;
    var m :| 0 <= m < next && sorted[m] == queue[0];
  }

  /** An empty ready queue: the clock jumps to the next arrival and only that
      process is admitted. */
  lemma RrJump(procs: seq<Process>, quantum: int, sorted: seq<nat>, ws: seq<Work>, next: nat,
               clock: int, log: Log, gantt: seq<Segment>, completed: seq<ProcResult>, done: seq<nat>)
    requires ValidInput(procs) && RrState(procs, quantum, sorted, ws, [], next, clock, log, gantt, completed, done)
    requires next < |sorted|
    ensures DispatchReady(procs, quantum, sorted, ws, [sorted[next]], next + 1, procs[sorted[next]].arrival,
                  log, gantt, completed, done)
  {
    JumpQueue(procs, sorted, ws, next, clock, log);
    JumpWork(procs, sorted, next, ws, log);
    JumpFit(procs, quantum, sorted, next, log);
  }

  /** When every burst fits, the process admitted by the jump is the next
      one in arrival order to be dispatched. */
  lemma JumpFit(procs: seq<Process>, quantum: int, sorted: seq<nat>, next: nat, log: Log)
    requires FitOK(procs, quantum, sorted, [], next, log) && next < |sorted|
    ensures FitOK(procs, quantum, sorted, [sorted[next]], next + 1, log)
  {
    if AllFit(procs, quantum) {
      assert [sorted[next]] == sorted[|log|..next + 1];
    }
  }

  /** After the jump the queue holds just the newly admitted process. */
  lemma JumpQueue(procs: seq<Process>, sorted: seq<nat>, ws: seq<Work>, next: nat, clock: int, log: Log)
    requires ValidInput(procs) && ArrivalSorted(procs, sorted)
    requires QueueOK(procs, sorted, ws, [], next, clock) && WorkOK(procs, sorted, next, ws, log)
    requires next < |sorted|
    ensures QueueOK(procs, sorted, ws, [sorted[next]], next + 1, procs[sorted[next]].arrival)
  {
    var j0 := sorted[next];
    assert sorted[..next + 1] == sorted[..next] + [j0];
    assert j0 !in sorted[..next];
    forall m | 0 <= m < next + 1 ensures procs[sorted[m]].arrival <= procs[j0].arrival {
    }
  }

  /** Admitting one more process keeps the working copies matched. */
  lemma JumpWork(procs: seq<Process>, sorted: seq<nat>, next: nat, ws: seq<Work>, log: Log)
    requires WorkOK(procs, sorted, next, ws, log) && next < |sorted|
    ensures WorkOK(procs, sorted, next + 1, ws, log)
  {
    assert sorted[..next + 1] == sorted[..next] + [sorted[next]];
  }

  /** A dispatch of `h` from `clock` to `clock2` that lasts the smaller of
      the quantum and what `h` still needs keeps the log valid and adds its
      segment to the chart. */
  lemma DispatchLog(procs: seq<Process>, quantum: int, log: Log, gantt: seq<Segment>, h: nat, clock: int, clock2: int)
    requires LogOK(procs, quantum, log) && gantt == ChartOf(procs, log)
    requires h < |procs| && Served(log, h) < procs[h].burst
    requires clock == Max(FreeAfter(log), procs[h].arrival)
    requires clock2 == clock + Min(quantum, procs[h].burst - Served(log, h))
    ensures LogOK(procs, quantum, log + [Slice(h, clock, clock2)])
    ensures gantt + [Segment(procs[h].name, clock, clock2)] == ChartOf(procs, log + [Slice(h, clock, clock2)])
    ensures FreeAfter(log + [Slice(h, clock, clock2)]) == clock2
  {
    var s := Slice(h, clock, clock2);
    LogOKAppend(procs, quantum, log, s);
    assert Indexed(log + [s], |procs|);
  }

  /** A dispatch keeps each working copy matched to the new log. */
  lemma DispatchWork(procs: seq<Process>, quantum: int, sorted: seq<nat>, ws: seq<Work>, next: nat, log: Log,
                     h: nat, s: Slice, ws2: seq<Work>, next2: nat)
    requires WorkOK(procs, sorted, next, ws, log) && h < |procs| && h in sorted[..next]
    requires next <= next2 <= |sorted|
    requires s.who == h && s.end - s.start == Min(quantum, ws[h].remaining)
    requires ws2 == ws[h := Work(procs[h], ws[h].remaining - (s.end - s.start),
                                 if ws[h].start.None? then Some(s.start) else ws[h].start)]
    ensures WorkOK(procs, sorted, next2, ws2, log + [s])
  {
    assert sorted[..next2][..next] == sorted[..next];
    forall j | 0 <= j < |procs|
      ensures ws2[j].process == procs[j] && 0 <= ws2[j].remaining == procs[j].burst - Served(log + [s], j)
      ensures ws2[j].start == FirstStart(log + [s], j)
      ensures j !in sorted[..next2] ==> Served(log + [s], j) == 0
    {
      LogAppend(log, s, j);
      if j !in sorted[..next2] {
        assert j !in sorted[..next];
      }
    }
  }

  /** A dispatch keeps the completed records: `h` is added exactly when it
      has received its whole burst. */
  lemma DispatchDone(procs: seq<Process>, log: Log, completed: seq<ProcResult>, done: seq<nat>,
                     h: nat, s: Slice, completed2: seq<ProcResult>, done2: seq<nat>)
    requires DoneOK(procs, log, completed, done) && h < |procs|
    requires s.who == h && s.start < s.end && Served(log, h) < procs[h].burst
    requires FirstStart(log + [s], h).Some?
    requires if Served(log + [s], h) == procs[h].burst
      then completed2 == completed + [Finished(procs[h], FirstStart(log + [s], h).value, s.end)] && done2 == done + [h]
      else completed2 == completed && done2 == done
    ensures DoneOK(procs, log + [s], completed2, done2)
  {
    forall j | 0 <= j < |procs|
      ensures Served(log + [s], j) == Served(log, j) + (if j == h then s.end - s.start else 0)
      ensures j != h ==> FirstStart(log + [s], j) == FirstStart(log, j) && LastEnd(log + [s], j) == LastEnd(log, j)
    {
      LogAppend(log, s, j);
    }
    LogAppend(log, s, h);
    assert h !in done;
  }

  /** A block of a permutation is duplicate-free and shares nothing with the
      part before it. */
  lemma PermutationBlock(sorted: seq<nat>, n: nat, next: nat, next2: nat)
    requires IsPermutation(sorted, n) && next <= next2 <= n
    ensures var block := sorted[next..next2];
      && Distinct(block) && InBounds(block, n)
      && sorted[..next2] == sorted[..next] + block
      && forall k :: 0 <= k < |block| ==> block[k] == sorted[next + k] && block[k] !in sorted[..next]
  {
    var block := sorted[next..next2];
    assert sorted[..next2] == sorted[..next] + block;
    forall k | 0 <= k < |block| ensures block[k] == sorted[next + k] && block[k] !in sorted[..next] {
      assert block[k] == sorted[next + k];
    }
  }

  /** Dequeuing the head and appending new processes keeps the queue
      duplicate-free; the head is no longer in it. */
  lemma Refill(queue: seq<nat>, block: seq<nat>, n: nat)
    requires queue != [] && Distinct(queue) && Distinct(block) && InBounds(queue, n) && InBounds(block, n)
    requires forall k :: 0 <= k < |block| ==> block[k] !in queue
    ensures var q1 := queue[1..] + block;
      && Distinct(q1) && InBounds(q1, n) && queue[0] !in q1
      && forall j :: j in q1 <==> (j in queue && j != queue[0]) || j in block
  {
    var q1 := queue[1..] + block;
    var d := |queue| - 1;
    forall k, m | 0 <= k < m < |q1| ensures q1[k] != q1[m] {
      if m < d {
        assert q1[k] == queue[k + 1] && q1[m] == queue[m + 1];
      } else if k < d {
        assert q1[k] == queue[k + 1] && q1[m] == block[m - d];
      } else {
        assert q1[k] == block[k - d] && q1[m] == block[m - d];
      }
    }
    forall k | 0 <= k < |q1| ensures q1[k] != queue[0] && q1[k] < n {
      if k < d {
        assert q1[k] == queue[k + 1];
      } else {
        assert q1[k] == block[k - d];
      }
    }
    forall j ensures j in q1 <==> (j in queue && j != queue[0]) || j in block {
      assert j in queue <==> j == queue[0] || j in queue[1..];
    }
  }

  /** The newly admitted block holds fresh processes: none is queued or is
      the head, and each still needs its whole burst. */
  lemma BlockFresh(procs: seq<Process>, sorted: seq<nat>, ws: seq<Work>, queue: seq<nat>, next: nat, clock: int,
                   log: Log, ws2: seq<Work>, next2: nat)
    requires ArrivalSorted(procs, sorted) && QueueOK(procs, sorted, ws, queue, next, clock) && queue != []
    requires next <= next2 <= |sorted|
    requires ValidInput(procs) && WorkOK(procs, sorted, next, ws, log)
    requires |ws2| == |ws| && forall j :: 0 <= j < |ws| && j != queue[0] ==> ws2[j] == ws[j]
    ensures var block := sorted[next..next2];
      && Distinct(block) && InBounds(block, |procs|)
      && sorted[..next2] == sorted[..next] + block
      && forall k :: 0 <= k < |block| ==> block[k] !in queue && block[k] != queue[0] && ws2[block[k]].remaining > 0
  {
    var h := queue[0];
    assert h in queue;
    var block := sorted[next..next2];
    PermutationBlock(sorted, |procs|, next, next2);
    forall k | 0 <= k < |block| ensures block[k] !in queue && block[k] != h && ws2[block[k]].remaining > 0 {
      assert block[k] !in sorted[..next];
    }
  }

  /** Membership in the refilled queue: a process is queued exactly when it
      has been admitted and still needs time. */
  lemma QueueMembers(n: nat, sorted: seq<nat>, ws: seq<Work>, queue: seq<nat>, next: nat,
                     block: seq<nat>, ws2: seq<Work>, q1: seq<nat>, queue2: seq<nat>, next2: nat)
    requires |ws| == |ws2| == n && queue != [] && queue[0] < n && next <= next2 <= |sorted|
    requires forall j :: 0 <= j < n ==> (j in queue <==> j in sorted[..next] && ws[j].remaining > 0)
    requires forall j :: 0 <= j < n && j != queue[0] ==> ws2[j] == ws[j]
    requires sorted[..next2] == sorted[..next] + block
    requires InBounds(block, n) && forall k :: 0 <= k < |block| ==> ws2[block[k]].remaining > 0
    requires forall j :: j in q1 <==> (j in queue && j != queue[0]) || j in block
    requires queue2 == q1 + (if ws2[queue[0]].remaining > 0 then [queue[0]] else [])
    ensures forall j :: 0 <= j < n ==> (j in queue2 <==> j in sorted[..next2] && ws2[j].remaining > 0)
  {
    var h := queue[0];
    assert h in queue;
    forall j | 0 <= j < n ensures j in queue2 <==> j in sorted[..next2] && ws2[j].remaining > 0 {
      assert j in queue2 <==> j in q1 || (j == h && ws2[h].remaining > 0);
      assert j in sorted[..next2] <==> j in sorted[..next] || j in block;
      if j in block {
        var k :| 0 <= k < |block| && block[k] == j;
      }
    }
  }

  /** Appending the head again, when it still needs time, keeps the queue
      duplicate-free. */
  lemma Requeue(q1: seq<nat>, h: nat, n: nat, again: bool)
    requires Distinct(q1) && InBounds(q1, n) && h < n && h !in q1
    ensures var queue2 := q1 + (if again then [h] else []);
      Distinct(queue2) && InBounds(queue2, n)
  {
    if again {
      assert forall k :: 0 <= k < |q1| ==> (q1 + [h])[k] == q1[k];
    }
  }

  /** The queue after a dispatch: the rest of the queue, then the newly
      admitted processes, then the head again if it still needs time. */
  lemma DispatchQueue(procs: seq<Process>, sorted: seq<nat>, ws: seq<Work>, queue: seq<nat>, next: nat, clock: int,
                      log: Log, ws2: seq<Work>, queue2: seq<nat>, next2: nat, clock2: int)
    requires ArrivalSorted(procs, sorted) && QueueOK(procs, sorted, ws, queue, next, clock) && queue != []
    requires clock <= clock2 && next <= next2 <= |sorted|
    requires forall m :: next <= m < next2 ==> procs[sorted[m]].arrival <= clock2
    requires ValidInput(procs) && WorkOK(procs, sorted, next, ws, log)
    requires |ws2| == |ws| && forall j :: 0 <= j < |ws| && j != queue[0] ==> ws2[j] == ws[j]
    requires queue2 == queue[1..] + sorted[next..next2] + (if ws2[queue[0]].remaining > 0 then [queue[0]] else [])
    ensures QueueOK(procs, sorted, ws2, queue2, next2, clock2)
  {
    var h := queue[0];
    var block := sorted[next..next2];
    BlockFresh(procs, sorted, ws, queue, next, clock, log, ws2, next2);
    Refill(queue, block, |procs|);
    var q1 := queue[1..] + block;
    Requeue(q1, h, |procs|, ws2[h].remaining > 0);
    QueueMembers(|procs|, sorted, ws, queue, next, block, ws2, q1, queue2, next2);
    forall m | 0 <= m < next2 ensures procs[sorted[m]].arrival <= clock2 {
      if m < next {
        assert procs[sorted[m]].arrival <= clock;
      }
    }
  }

  /** When every burst fits, a dispatch serves the head, the next process in
      arrival order, for its whole burst, and never puts it back. */
  lemma DispatchFit(procs: seq<Process>, quantum: int, sorted: seq<nat>, ws: seq<Work>, queue: seq<nat>, next: nat,
                    log: Log, s: Slice, left: int, queue2: seq<nat>, next2: nat)
    requires ValidInput(procs) && AllFit(procs, quantum)
    requires ArrivalSorted(procs, sorted) && WorkOK(procs, sorted, next, ws, log)
    requires FitOK(procs, quantum, sorted, queue, next, log) && queue != []
    requires next <= next2 <= |sorted|
    requires s.who == queue[0] && left == ws[queue[0]].remaining - Min(quantum, ws[queue[0]].remaining)
    requires queue2 == queue[1..] + sorted[next..next2] + (if left > 0 then [queue[0]] else [])
    ensures Served(log, queue[0]) == 0 && left == 0
    ensures FitOK(procs, quantum, sorted, queue2, next2, log + [s])
  {
    var h := queue[0];
    var k0 := |log|;
    assert h == sorted[k0];
    forall k | 0 <= k < |log| ensures log[k].who != h {
      assert log[k].who == sorted[k];
    }
    ServedAbsent(log, h);
    assert left == 0;
    assert queue[1..] == sorted[k0 + 1..next];
    assert queue2 == sorted[k0 + 1..next] + sorted[next..next2];
    SliceJoin(sorted, k0 + 1, next, next2);
  }

  lemma SliceJoin(s: seq<nat>, i: nat, j: nat, k: nat)
    requires i <= j <= k <= |s|
    ensures s[i..j] + s[j..k] == s[i..k]
  {
  }

  /** A dispatch of the head `h` followed by the admission of the processes
      that arrived meanwhile re-establishes the loop state, and the total time
      left drops. */
  lemma DispatchStep(procs: seq<Process>, quantum: int, sorted: seq<nat>, ws: seq<Work>, queue: seq<nat>, next: nat,
                     clock: int, log: Log, gantt: seq<Segment>, completed: seq<ProcResult>, done: seq<nat>,
                     ws2: seq<Work>, queue2: seq<nat>, next2: nat, clock2: int, gantt2: seq<Segment>,
                     completed2: seq<ProcResult>, done2: seq<nat>)
    requires ValidInput(procs) && quantum >= 1
    requires DispatchReady(procs, quantum, sorted, ws, queue, next, clock, log, gantt, completed, done)
    requires Dispatched(procs, quantum, sorted, ws, queue, next, clock, gantt, completed, done,
                        ws2, queue2, next2, clock2, gantt2, completed2, done2)
    ensures RrState(procs, quantum, sorted, ws2, queue2, next2, clock2, log + [Slice(queue[0], clock, clock2)], gantt2, completed2, done2)
    ensures 0 <= SumRem(ws2) < SumRem(ws)
  {
    var h := queue[0];
    var s := Slice(h, clock, clock2);
    var log2 := log + [s];
    ReadyHead(procs, quantum, sorted, ws, queue, next, clock, log, gantt, completed, done);
    assert h in sorted[..next] by {
      assert h in queue;
    }
    DispatchRecords(procs, quantum, sorted, ws, queue, next, clock, log, gantt, completed, done,
                    ws2, queue2, next2, clock2, gantt2, completed2, done2);
    DispatchQueue(procs, sorted, ws, queue, next, clock, log, ws2, queue2, next2, clock2);
    if AllFit(procs, quantum) {
      DispatchFit(procs, quantum, sorted, ws, queue, next, log, s, ws2[h].remaining, queue2, next2);
    }
    SumRemUpdate(ws, h, ws2[h]);
    SumRemNonneg(ws2);
  }

  /** One dispatch of the head h of the queue: it runs from `clock` for the
      smaller of the quantum and what it still needs, as one segment; its
      working copy alone changes, taking the time off and fixing its start on
      the first dispatch; the processes that arrived by the new time are
      admitted; then h completes or goes back to the tail of the queue. */
  predicate Dispatched(procs: seq<Process>, quantum: int, sorted: seq<nat>, ws: seq<Work>, queue: seq<nat>, next: nat,
                       clock: int, gantt: seq<Segment>, completed: seq<ProcResult>, done: seq<nat>,
                       ws2: seq<Work>, queue2: seq<nat>, next2: nat, clock2: int, gantt2: seq<Segment>,
                       completed2: seq<ProcResult>, done2: seq<nat>)
  {
    && queue != [] && queue[0] < |ws| && queue[0] < |procs| && InBounds(sorted, |procs|)
    && var h := queue[0];
      var exec := Min(quantum, ws[h].remaining);
      && clock2 == clock + exec
      && gantt2 == gantt + [Segment(procs[h].name, clock, clock2)]
      && ws2 == ws[h := Work(procs[h], ws[h].remaining - exec, if ws[h].start.None? then Some(clock) else ws[h].start)]
      && next <= next2 <= |sorted|
      && (forall m :: next <= m < next2 ==> procs[sorted[m]].arrival <= clock2)
      && (next2 == |sorted| || clock2 < procs[sorted[next2]].arrival)
      && queue2 == queue[1..] + sorted[next..next2] + (if ws[h].remaining - exec > 0 then [h] else [])
      && if ws[h].remaining - exec == 0
         then completed2 == completed + [Finished(procs[h], if ws[h].start.None? then clock else ws[h].start.value, clock2)]
              && done2 == done + [h]
         else completed2 == completed && done2 == done
  }

  /** The part of DispatchStep about the log, the chart, the working copies
      and the completed records. */
  lemma DispatchRecords(procs: seq<Process>, quantum: int, sorted: seq<nat>, ws: seq<Work>, queue: seq<nat>, next: nat,
                        clock: int, log: Log, gantt: seq<Segment>, completed: seq<ProcResult>, done: seq<nat>,
                        ws2: seq<Work>, queue2: seq<nat>, next2: nat, clock2: int, gantt2: seq<Segment>,
                        completed2: seq<ProcResult>, done2: seq<nat>)
    requires ValidInput(procs) && quantum >= 1
    requires DispatchReady(procs, quantum, sorted, ws, queue, next, clock, log, gantt, completed, done)
    requires Dispatched(procs, quantum, sorted, ws, queue, next, clock, gantt, completed, done,
                        ws2, queue2, next2, clock2, gantt2, completed2, done2)
    requires queue[0] in sorted[..next]
    ensures var log2 := log + [Slice(queue[0], clock, clock2)];
      && LogOK(procs, quantum, log2) && gantt2 == ChartOf(procs, log2) && FreeAfter(log2) == clock2
      && WorkOK(procs, sorted, next2, ws2, log2) && DoneOK(procs, log2, completed2, done2)
  {
    var h := queue[0];
    var s := Slice(h, clock, clock2);
    ReadyHead(procs, quantum, sorted, ws, queue, next, clock, log, gantt, completed, done);
    DispatchLog(procs, quantum, log, gantt, h, clock, clock2);
    DispatchWork(procs, quantum, sorted, ws, next, log, h, s, ws2, next2);
    LogAppend(log, s, h);
    DispatchDone(procs, log, completed, done, h, s, completed2, done2);
  }

  /** The head of a non-empty queue is a process that still needs time. */
  lemma ReadyHead(procs: seq<Process>, quantum: int, sorted: seq<nat>, ws: seq<Work>, queue: seq<nat>, next: nat,
                  clock: int, log: Log, gantt: seq<Segment>, completed: seq<ProcResult>, done: seq<nat>)
    requires DispatchReady(procs, quantum, sorted, ws, queue, next, clock, log, gantt, completed, done)
    ensures queue[0] < |ws| == |procs| && ws[queue[0]].process == procs[queue[0]] && ws[queue[0]].remaining > 0
    ensures ws[queue[0]].remaining == procs[queue[0]].burst - Served(log, queue[0])
    ensures InBounds(sorted, |procs|) && next <= |sorted|
  {
    assert queue[0] in queue;
  }

  /** One iteration after the jump: dequeue the head, fix its start on its
      first dispatch, run it for the smaller of the quantum and what it still
      needs as one segment, admit the processes that arrived meanwhile, then
      complete the head or put it back at the tail. */
  method Dispatch(procs: seq<Process>, quantum: int, sorted: seq<nat>, work: array<Work>, queue: seq<nat>, next: nat,
                  clock: int, gantt: seq<Segment>, completed: seq<ProcResult>,
                  ghost ws: seq<Work>, ghost log: Log, ghost done: seq<nat>)
    returns (queue2: seq<nat>, next2: nat, clock2: int, gantt2: seq<Segment>, completed2: seq<ProcResult>,
             ghost ws2: seq<Work>, ghost log2: Log, ghost done2: seq<nat>)
    requires ValidInput(procs) && quantum >= 1 && work.Length == |procs| && work[..] == ws
    requires DispatchReady(procs, quantum, sorted, ws, queue, next, clock, log, gantt, completed, done)
    modifies work
    ensures Dispatched(procs, quantum, sorted, ws, queue, next, clock, gantt, completed, done,
                       ws2, queue2, next2, clock2, gantt2, completed2, done2)
    ensures work[..] == ws2
    ensures log2 == log + [Slice(queue[0], clock, clock2)]
    ensures RrState(procs, quantum, sorted, ws2, queue2, next2, clock2, log2, gantt2, completed2, done2)
    ensures 0 <= SumRem(ws2) < SumRem(ws)
  {
    ReadyHead(procs, quantum, sorted, ws, queue, next, clock, log, gantt, completed, done);
    var h := queue[0];
    var cur := work[h];
    var exec := Min(quantum, cur.remaining);
    var first := if cur.start.None? then Some(clock) else cur.start;
    clock2 := clock + exec;
    gantt2 := gantt + [Segment(cur.process.name, clock, clock2)];
    var left := Work(cur.process, cur.remaining - exec, first);
    work[h] := left;
    ws2 := ws[h := left];
    assert work[..] == ws2;
    log2 := log + [Slice(h, clock, clock2)];
    var rest;
    rest, next2 := Admit(procs, sorted, queue[1..], next, clock2);
    if left.remaining == 0 {
      completed2 := completed + [Finished(left.process, first.value, clock2)];
      queue2 := rest;
      done2 := done + [h];
    } else {
      queue2 := rest + [h];
      completed2, done2 := completed, done;
    }
    DispatchStep(procs, quantum, sorted, ws, queue, next, clock, log, gantt, completed, done,
                 ws2, queue2, next2, clock2, gantt2, completed2, done2);
  }

  /** A dispatch, as Dispatch performs it, of the head of the replayed queue
      leaves the queue Replay describes. */
  lemma DispatchReplay(procs: seq<Process>, quantum: int, sorted: seq<nat>, ws: seq<Work>, queue: seq<nat>, next: nat,
                       clock: int, log: Log, gantt: seq<Segment>, completed: seq<ProcResult>, done: seq<nat>,
                       ws2: seq<Work>, queue2: seq<nat>, next2: nat, clock2: int, gantt2: seq<Segment>,
                       completed2: seq<ProcResult>, done2: seq<nat>)
    requires DispatchReady(procs, quantum, sorted, ws, queue, next, clock, log, gantt, completed, done)
    requires Dispatched(procs, quantum, sorted, ws, queue, next, clock, gantt, completed, done,
                        ws2, queue2, next2, clock2, gantt2, completed2, done2)
    requires FifoNext(procs, sorted, log, Queue(queue, next))
    ensures FifoAt(procs, sorted, log + [Slice(queue[0], clock, clock2)], Queue(queue2, next2))
  {
    ReadyHead(procs, quantum, sorted, ws, queue, next, clock, log, gantt, completed, done);
    var h := queue[0];
    var left := ws[h].remaining - Min(quantum, ws[h].remaining);
    ReplayStep(procs, sorted, log, queue, next, Slice(h, clock, clock2), left, queue2, next2);
  }

  /** When the queue is empty and every process has been admitted, every
      process is complete, once, and the results are those of the log. */
  lemma RrFinished(procs: seq<Process>, quantum: int, sorted: seq<nat>, ws: seq<Work>, clock: int,
                   log: Log, gantt: seq<Segment>, completed: seq<ProcResult>, done: seq<nat>)
    requires ValidInput(procs) && DistinctIds(procs) && quantum >= 1
    requires RrState(procs, quantum, sorted, ws, [], |sorted|, clock, log, gantt, completed, done)
    ensures Complete(procs, quantum, log)
    ensures IsPermutation(done, |procs|)
    ensures ResultOfLog(procs, log, SortByInputPosition(procs, completed))
    ensures AllFit(procs, quantum) ==> |log| == |procs| && forall m :: 0 <= m < |log| ==> log[m].who == sorted[m]
  {
    AllServed(procs, sorted, ws, clock, log, completed, done);
    DoneResults(procs, log, completed, done);
    assert sorted[..|sorted|] == sorted;
  }

  /** Once every process is done, the re-sorted records are the log's results. */
  lemma DoneResults(procs: seq<Process>, log: Log, completed: seq<ProcResult>, done: seq<nat>)
    requires DistinctIds(procs) && DoneOK(procs, log, completed, done) && IsPermutation(done, |procs|)
    requires forall k :: 0 <= k < |done| ==> completed[k].process == procs[done[k]]
    ensures ResultOfLog(procs, log, SortByInputPosition(procs, completed))
  {
    var out := SortByInputPosition(procs, completed);
    SortByInputPositionRestoresOrder(procs, completed, done);
    forall i | 0 <= i < |procs|
      ensures FirstStart(log, i).Some? && LastEnd(log, i).Some?
      ensures out[i] == Finished(procs[i], FirstStart(log, i).value, LastEnd(log, i).value)
    {
      CompletedOf(procs, log, completed, done, i);
    }
  }

  /** With the queue empty and everything admitted, every process has
      received its whole burst, so every process has completed once. */
  lemma AllServed(procs: seq<Process>, sorted: seq<nat>, ws: seq<Work>, clock: int,
                  log: Log, completed: seq<ProcResult>, done: seq<nat>)
    requires IsPermutation(sorted, |procs|)
    requires QueueOK(procs, sorted, ws, [], |sorted|, clock)
    requires WorkOK(procs, sorted, |sorted|, ws, log)
    requires DoneOK(procs, log, completed, done)
    ensures forall j :: 0 <= j < |procs| ==> Served(log, j) == procs[j].burst && j in done
    ensures IsPermutation(done, |procs|)
  {
    assert sorted[..|sorted|] == sorted;
    DistinctBoundedCard(sorted, |procs|);
    forall j | 0 <= j < |procs| ensures Served(log, j) == procs[j].burst && j in done {
      assert j in sorted;
    }
    CoveringDistinctIsPermutation(done, |procs|);
  }

  /** The record of a completed process, from DoneOK. */
  lemma CompletedOf(procs: seq<Process>, log: Log, completed: seq<ProcResult>, done: seq<nat>, i: nat)
    requires DoneOK(procs, log, completed, done) && i in done
    ensures FirstStart(log, i).Some? && LastEnd(log, i).Some?
    ensures completed[IndexOf(done, i)] == Finished(procs[i], FirstStart(log, i).value, LastEnd(log, i).value)
  {
    var k := IndexOf(done, i);
    assert done[k] == i;
  }

  /** The results of a complete log satisfy the metric identities. */
  lemma LogMetrics(procs: seq<Process>, quantum: int, log: Log, recs: seq<ProcResult>)
    requires ValidInput(procs) && quantum >= 1 && Complete(procs, quantum, log) && ResultOfLog(procs, log, recs)
    ensures forall i :: 0 <= i < |procs| ==> recs[i].process == procs[i] && MetricsHold(recs[i])
  {
    forall i | 0 <= i < |procs| ensures recs[i].process == procs[i] && MetricsHold(recs[i]) {
      LogSpan(procs, quantum, log, i);
    }
  }

  /** One pass of the loop of roundRobinScheduling: when the queue is empty
      the clock jumps to the next arrival, then the head of the queue is
      dispatched. The dispatch serves the process Replay puts at the head,
      from the later of the clock and its arrival; the new state is the one
      the extended log determines, and the total time left drops. */
  method Step(procs: seq<Process>, quantum: int, sorted: seq<nat>, work: array<Work>, queue: seq<nat>, next: nat,
              clock: int, gantt: seq<Segment>, completed: seq<ProcResult>, ghost log: Log, ghost done: seq<nat>)
    returns (queue2: seq<nat>, next2: nat, clock2: int, gantt2: seq<Segment>, completed2: seq<ProcResult>,
             ghost log2: Log, ghost done2: seq<nat>)
    requires ValidInput(procs) && quantum >= 1 && work.Length == |procs|
    requires RrState(procs, quantum, sorted, work[..], queue, next, clock, log, gantt, completed, done)
    requires FifoAt(procs, sorted, log, Queue(queue, next))
    requires queue != [] || next < |sorted|
    modifies work
    ensures Head(procs, sorted, log).Some? && Head(procs, sorted, log).value < |procs|
    ensures var h := Head(procs, sorted, log).value;
      var start := Max(clock, procs[h].arrival);
      && log2 == log + [Slice(h, start, clock2)]
      && gantt2 == gantt + [Segment(procs[h].name, start, clock2)]
    ensures RrState(procs, quantum, sorted, work[..], queue2, next2, clock2, log2, gantt2, completed2, done2)
    ensures FifoAt(procs, sorted, log2, Queue(queue2, next2))
    ensures 0 <= SumRem(work[..]) < SumRem(old(work[..]))
  {
    ghost var q := Jump(sorted, Queue(queue, next));
    FifoJumped(procs, sorted, log, Queue(queue, next));
    var queue1, next1, clock1 := queue, next, clock;
    if queue == [] {
      RrJump(procs, quantum, sorted, work[..], next, clock, log, gantt, completed, done);
      clock1 := procs[sorted[next]].arrival;
      queue1 := [sorted[next]];
      next1 := next + 1;
    } else {
      RrQueued(procs, quantum, sorted, work[..], queue, next, clock, log, gantt, completed, done);
    }
    assert Queue(queue1, next1) == q;
    ghost var ws := work[..];
    ghost var ws2;
    queue2, next2, clock2, gantt2, completed2, ws2, log2, done2 :=
      Dispatch(procs, quantum, sorted, work, queue1, next1, clock1, gantt, completed, ws, log, done);
    DispatchReplay(procs, quantum, sorted, ws, queue1, next1, clock1, log, gantt, completed, done,
                   ws2, queue2, next2, clock2, gantt2, completed2, done2);
  }

  /** The loop of roundRobinScheduling, from the initial admission: dispatch
      until the queue is empty and every process has been admitted. The final
      state is the one the final log determines, and that log serves every
      dispatch at the head of the queue. */
  method RunQueue(procs: seq<Process>, quantum: int, sorted: seq<nat>, work: array<Work>, queue: seq<nat>, next: nat)
    returns (clock: int, gantt: seq<Segment>, completed: seq<ProcResult>, ghost log: Log, ghost done: seq<nat>)
    requires ValidInput(procs) && quantum >= 1 && work.Length == |procs|
    requires RrState(procs, quantum, sorted, work[..], queue, next, 0, [], [], [], [])
    requires InBounds(sorted, |procs|) && next <= |sorted|
    requires queue == [] + sorted[0..next] && next == AdmitFrom(procs, sorted, 0, 0)
    modifies work
    ensures RrState(procs, quantum, sorted, work[..], [], |sorted|, clock, log, gantt, completed, done)
    ensures FifoLog(procs, sorted, log)
  {
    FifoInit(procs, sorted, queue, next);
    var queue1: seq<nat>, next1: nat := queue, next;
    clock, gantt, completed, log, done := 0, [], [], [], [];
    while queue1 != [] || next1 < |sorted|
      invariant work.Length == |procs|
      invariant RrState(procs, quantum, sorted, work[..], queue1, next1, clock, log, gantt, completed, done)
      invariant FifoAt(procs, sorted, log, Queue(queue1, next1))
      decreases SumRem(work[..])
    {
      queue1, next1, clock, gantt, completed, log, done :=
        Step(procs, quantum, sorted, work, queue1, next1, clock, gantt, completed, log, done);
    }
  }

  /** roundRobinScheduling */
  method RoundRobin(procs: seq<Process>, quantum: int) returns (r: Schedule)
    requires ValidInput(procs) && DistinctIds(procs) && quantum >= 1
    ensures exists log :: RrLog(procs, quantum, log) && ResultOfLog(procs, log, r.processes) && r.gantt == ChartOf(procs, log)
    ensures WellFormed(r.gantt)
    ensures QuantumBounded(r.gantt, quantum)
    ensures |r.processes| == |procs|
    ensures forall i :: 0 <= i < |procs| ==> r.processes[i].process == procs[i] && MetricsHold(r.processes[i])
    ensures DistinctNames(procs) ==> forall i :: 0 <= i < |procs| ==> Busy(r.gantt, procs[i].name) == procs[i].burst
    ensures AllFit(procs, quantum) ==> r.gantt == Timeline(Serve(procs, ArrivalOrder(procs), 0))
  {
    var sorted := ArrivalOrder(procs);
    ArrivalOrderSorted(procs);
    var work := new Work[|procs|](j requires 0 <= j < |procs| => Work(procs[j], procs[j].burst, None));
    var queue: seq<nat>, next: nat := Admit(procs, sorted, [], 0, 0);
    RrInit(procs, quantum, sorted, work[..], queue, next);
    var clock, gantt, completed;
    ghost var log, done;
    clock, gantt, completed, log, done := RunQueue(procs, quantum, sorted, work, queue, next);
    r := Schedule(SortByInputPosition(procs, completed), gantt);
    RrResult(procs, quantum, sorted, work[..], clock, log, gantt, completed, done, r);
  }

  /** At the end of the loop, the re-sorted records and the chart satisfy
      everything roundRobinScheduling promises. */
  lemma RrResult(procs: seq<Process>, quantum: int, sorted: seq<nat>, ws: seq<Work>, clock: int,
                 log: Log, gantt: seq<Segment>, completed: seq<ProcResult>, done: seq<nat>, r: Schedule)
    requires ValidInput(procs) && DistinctIds(procs) && quantum >= 1 && sorted == ArrivalOrder(procs)
    requires FifoLog(procs, sorted, log)
    requires RrState(procs, quantum, sorted, ws, [], |sorted|, clock, log, gantt, completed, done)
    requires r == Schedule(SortByInputPosition(procs, completed), gantt)
    ensures exists log :: RrLog(procs, quantum, log) && ResultOfLog(procs, log, r.processes) && r.gantt == ChartOf(procs, log)
    ensures WellFormed(r.gantt)
    ensures QuantumBounded(r.gantt, quantum)
    ensures |r.processes| == |procs|
    ensures forall i :: 0 <= i < |procs| ==> r.processes[i].process == procs[i] && MetricsHold(r.processes[i])
    ensures DistinctNames(procs) ==> forall i :: 0 <= i < |procs| ==> Busy(r.gantt, procs[i].name) == procs[i].burst
    ensures AllFit(procs, quantum) ==> r.gantt == Timeline(Serve(procs, ArrivalOrder(procs), 0))
  {
    RrFinished(procs, quantum, sorted, ws, clock, log, gantt, completed, done);
    assert RrLog(procs, quantum, log);
    assert ResultOfLog(procs, log, r.processes) && r.gantt == ChartOf(procs, log);
    LogFacts(procs, quantum, sorted, log, r.gantt, r.processes);
  }

  /** What a complete log tells about the chart and the records built from it. */
  lemma LogFacts(procs: seq<Process>, quantum: int, sorted: seq<nat>, log: Log, gantt: seq<Segment>, out: seq<ProcResult>)
    requires ValidInput(procs) && quantum >= 1 && IsPermutation(sorted, |procs|)
    requires Complete(procs, quantum, log) && ResultOfLog(procs, log, out) && gantt == ChartOf(procs, log)
    requires AllFit(procs, quantum) ==> |log| == |procs| && forall m :: 0 <= m < |log| ==> log[m].who == sorted[m]
    ensures WellFormed(gantt)
    ensures QuantumBounded(gantt, quantum)
    ensures forall i :: 0 <= i < |procs| ==> out[i].process == procs[i] && MetricsHold(out[i])
    ensures DistinctNames(procs) ==> forall i :: 0 <= i < |procs| ==> Busy(gantt, procs[i].name) == procs[i].burst
    ensures AllFit(procs, quantum) ==> gantt == Timeline(Serve(procs, sorted, 0))
  {
    LogMetrics(procs, quantum, log, out);
    LogChart(procs, quantum, log);
    if DistinctNames(procs) {
      forall i | 0 <= i < |procs| ensures Busy(gantt, procs[i].name) == procs[i].burst {
        LogBusy(procs, log, i);
      }
    }
    if AllFit(procs, quantum) {
      FitChartIsTimeline(procs, quantum, sorted, log);
    }
  }
}
