/** Record shapes shared by every scheduling engine (types/scheduling.ts),
    plus the small sequence vocabulary the engines are specified with. */
module SchedTypes {

  datatype Option<+T> = None | Some(value: T)

  /** An input process. `priority` is optional; its meaning (higher or lower
      number wins) is a parameter of the priority engines. */
  datatype Process = Process(id: string, name: string, arrival: int, burst: int, priority: Option<int>)

  /** A process together with the metrics an engine computed for it. */
  datatype ProcResult = ProcResult(
    process: Process,
    start: int,
    completion: int,
    turnaround: int,
    waiting: int,
    response: int)

  /** One bar of the Gantt chart: `name` ran during [start, end). */
  datatype Segment = Segment(name: string, start: int, end: int)

  /** What an engine returns (the display label is not modelled). */
  datatype Schedule = Schedule(processes: seq<ProcResult>, gantt: seq<Segment>)

  datatype PriorityOrder = HigherFirst | LowerFirst

  /** A working copy of a process inside the engines that run it piecewise:
      the time it still needs and, once it has been given the CPU, when that
      first happened (`None` plays the role of the source's -1 sentinel). */
  datatype Work = Work(process: Process, remaining: int, start: Option<int>)

  /** The input contract: arrival times are non-negative, burst times positive. */
  predicate ValidInput(procs: seq<Process>) {
    forall i :: 0 <= i < |procs| ==> procs[i].arrival >= 0 && procs[i].burst >= 1
  }

  predicate DistinctIds(procs: seq<Process>) {
    forall i, j :: 0 <= i < j < |procs| ==> procs[i].id != procs[j].id
  }

  predicate DistinctNames(procs: seq<Process>) {
    forall i, j :: 0 <= i < j < |procs| ==> procs[i].name != procs[j].name
  }

  /** The metric identities every engine establishes for a finished process. */
  predicate MetricsHold(r: ProcResult) {
    && r.turnaround == r.completion - r.process.arrival
    && r.waiting == r.turnaround - r.process.burst
    && r.response == r.start - r.process.arrival
    && 0 <= r.response <= r.waiting
  }

  /** The record the preemptive and round-robin engines emit when a process
      that first ran at `start` finishes at `completion`. */
  function Finished(p: Process, start: int, completion: int): ProcResult {
    ProcResult(p, start, completion, completion - p.arrival,
               completion - p.arrival - p.burst, start - p.arrival)
  }

  /** The record the run-to-completion engines emit for a process that got
      the CPU at `start` and kept it for its whole burst; waiting and response
      coincide. */
  function RanWhole(p: Process, start: int): (r: ProcResult)
    ensures r.process == p && r.start == start && r.completion == start + p.burst
    ensures start >= p.arrival && p.burst >= 0 ==> MetricsHold(r) && r.waiting == r.response
  {
    ProcResult(p, start, start + p.burst, start + p.burst - p.arrival, start - p.arrival, start - p.arrival)
  }

  /** Total time the working copies still need. */
  function SumRem(ws: seq<Work>): int {
    if ws == [] then 0 else SumRem(ws[..|ws| - 1]) + ws[|ws| - 1].remaining
  }

  lemma {:induction false} SumRemUpdate(ws: seq<Work>, w: nat, x: Work)
    requires w < |ws|
    ensures SumRem(ws[w := x]) == SumRem(ws) - ws[w].remaining + x.remaining
  {
    var n := |ws| - 1;
    var ws2 := ws[w := x];
    assert ws2[..n] == if w < n then ws[..n][w := x] else ws[..n];
    if w < n {
      SumRemUpdate(ws[..n], w, x);
    }
  }

  lemma {:induction false} SumRemNonneg(ws: seq<Work>)
    requires forall j :: 0 <= j < |ws| ==> ws[j].remaining >= 0
    ensures SumRem(ws) >= 0
  {
    if ws != [] {
      SumRemNonneg(ws[..|ws| - 1]);
    }
  }

  /** The time the CPU becomes free before record k: `clock` for the first. */
  function FreeAt(recs: seq<ProcResult>, k: nat, clock: int): int
    requires k <= |recs|
  {
    if k == 0 then clock else recs[k - 1].completion
  }

  function Max(a: int, b: int): int { if a < b then b else a }

  function Min(a: int, b: int): int { if a < b then a else b }

  /** The indices lo, lo+1, ..., hi-1. */
  function Range(lo: nat, hi: nat): (r: seq<nat>)
    requires lo <= hi
    ensures |r| == hi - lo
    ensures forall k :: 0 <= k < |r| ==> r[k] == lo + k
    decreases hi - lo
  {
    if lo == hi then [] else [lo] + Range(lo + 1, hi)
  }

  function Elems(s: seq<nat>): (r: set<nat>)
    ensures forall x :: x in r <==> x in s
  {
    set x | x in s
  }

  /** No entry of `s` occurs twice. */
  predicate Distinct(s: seq<nat>) {
    forall k, m :: 0 <= k < m < |s| ==> s[k] != s[m]
  }

  /** `s` lists each of 0, ..., n-1 exactly once. */
  predicate IsPermutation(s: seq<nat>, n: nat) {
    && |s| == n
    && (forall k :: 0 <= k < |s| ==> s[k] < n)
    && Distinct(s)
  }

  predicate StrictlyIncreasing(s: seq<nat>) {
    forall k, m :: 0 <= k < m < |s| ==> s[k] < s[m]
  }

  /** A duplicate-free list of n indices below n is a permutation. */
  lemma {:induction false} DistinctBoundedCard(s: seq<nat>, n: nat)
    requires forall k :: 0 <= k < |s| ==> s[k] < n
    requires Distinct(s)
    ensures |s| <= n
    ensures |s| == n ==> forall j :: 0 <= j < n ==> j in s
  {
    DistinctCard(s);
    assert Elems(s) <= RangeSet(n);
    RangeSetCard(n);
    assert |Elems(s)| <= n by {
      SubsetCard(Elems(s), RangeSet(n));
    }
    if |s| == n {
      forall j | 0 <= j < n ensures j in s {
        if j !in s {
          assert Elems(s) <= RangeSet(n) - {j};
          SubsetCard(Elems(s), RangeSet(n) - {j});
        }
      }
    }
  }

  /** A duplicate-free list that contains every index below n has n entries. */
  lemma {:induction false} CoveringDistinctIsPermutation(s: seq<nat>, n: nat)
    requires forall k :: 0 <= k < |s| ==> s[k] < n
    requires Distinct(s)
    requires forall j :: 0 <= j < n ==> j in s
    ensures IsPermutation(s, n)
  {
    DistinctCard(s);
    RangeSetCard(n);
    assert Elems(s) == RangeSet(n);
  }

  function RangeSet(n: nat): (r: set<nat>)
    ensures forall j: int :: j in r <==> 0 <= j < n
  {
    RangeMembers(n);
    Elems(Range(0, n))
  }

  lemma RangeMembers(n: nat)
    ensures forall j :: 0 <= j < n ==> j in Range(0, n)
  {
    var s := Range(0, n);
    forall j | 0 <= j < n ensures j in s {
      assert s[j] == j;
    }
  }

  lemma RangeSetCard(n: nat)
    ensures |RangeSet(n)| == n
  {
    DistinctCard(Range(0, n));
  }

  lemma {:induction false} DistinctCard(s: seq<nat>)
    requires Distinct(s)
    ensures |Elems(s)| == |s|
  {
    if |s| > 0 {
      var t := s[..|s| - 1];
      DistinctCard(t);
      assert Elems(s) == Elems(t) + {s[|s| - 1]};
      assert s[|s| - 1] !in Elems(t);
    }
  }

  lemma SubsetCard(a: set<nat>, b: set<nat>)
    requires a <= b
    ensures |a| <= |b|
  {
    if a != b {
      var x :| x in b && x !in a;
      SubsetCard(a, b - {x});
    }
  }
}
