/** The Gantt chart: a list of segments in time order, and the two ways the
    engines grow it (append a segment; or, per tick, extend the last segment
    when the same name runs again). */
module Gantt {
  import opened SchedTypes

  /** Every segment is non-empty and ends no later than the next one starts. */
  predicate WellFormed(g: seq<Segment>) {
    && (forall k :: 0 <= k < |g| ==> g[k].start < g[k].end)
    && (forall k :: 0 <= k < |g| - 1 ==> g[k].end <= g[k + 1].start)
  }

  /** Adjacent ordering implies that no two segments overlap. */
  lemma {:induction false} WellFormedNoOverlap(g: seq<Segment>, k: nat, m: nat)
    requires WellFormed(g)
    requires k < m < |g|
    ensures g[k].end <= g[m].start
    decreases m - k
  {
    if k + 1 < m {
      WellFormedNoOverlap(g, k + 1, m);
    }
  }

  /** Total time the chart shows `name` running. */
  function Busy(g: seq<Segment>, name: string): int {
    if g == [] then 0
    else
      var last := g[|g| - 1];
      Busy(g[..|g| - 1], name) + (if last.name == name then last.end - last.start else 0)
  }

  /** Appending a segment after the end of the chart keeps it well formed and
      adds its length to the busy time of its name only. */
  lemma AppendSegment(g: seq<Segment>, s: Segment)
    requires WellFormed(g) && s.start < s.end
    requires g != [] ==> g[|g| - 1].end <= s.start
    ensures WellFormed(g + [s])
    ensures forall name :: Busy(g + [s], name) == Busy(g, name) + (if s.name == name then s.end - s.start else 0)
  {
    var gs := g + [s];
    assert gs[..|gs| - 1] == g;
    assert forall k :: 0 <= k < |g| ==> gs[k] == g[k];
    forall name ensures Busy(gs, name) == Busy(g, name) + (if s.name == name then s.end - s.start else 0) {
      assert gs[|gs| - 1] == s;
    }
  }

  /** One segment per record, from its start to its completion: the chart of
      the engines that give each process the CPU once. */
  function Timeline(recs: seq<ProcResult>): (g: seq<Segment>)
    ensures |g| == |recs|
    ensures forall k :: 0 <= k < |recs| ==> g[k] == Segment(recs[k].process.name, recs[k].start, recs[k].completion)
  {
    seq(|recs|, k requires 0 <= k < |recs| => Segment(recs[k].process.name, recs[k].start, recs[k].completion))
  }

  /** Appending a record appends its segment. */
  lemma TimelineAppend(recs: seq<ProcResult>, rec: ProcResult)
    ensures Timeline(recs + [rec]) == Timeline(recs) + [Segment(rec.process.name, rec.start, rec.completion)]
  {
    assert Timeline(recs + [rec])[|recs|] == Segment(rec.process.name, rec.start, rec.completion);
  }

  /** A name no segment carries has no busy time. */
  lemma {:induction false} BusyAbsent(g: seq<Segment>, name: string)
    requires forall k :: 0 <= k < |g| ==> g[k].name != name
    ensures Busy(g, name) == 0
  {
    if g != [] {
      BusyAbsent(g[..|g| - 1], name);
    }
  }

  /** If record k is the only one with its name, the timeline shows that name
      busy for exactly the length of record k. */
  lemma {:induction false} TimelineBusy(recs: seq<ProcResult>, k: nat)
    requires k < |recs|
    requires forall m :: 0 <= m < |recs| && m != k ==> recs[m].process.name != recs[k].process.name
    ensures Busy(Timeline(recs), recs[k].process.name) == recs[k].completion - recs[k].start
  {
    var g := Timeline(recs);
    var n := |recs| - 1;
    var name := recs[k].process.name;
    assert g[..n] == Timeline(recs[..n]);
    if k < n {
      TimelineBusy(recs[..n], k);
    } else {
      BusyAbsent(g[..n], name);
    }
  }

  /** One tick of the preemptive engines: the unit [clock - 1, clock) ran
      `name`; if the last segment has that name its end moves to `clock`,
      otherwise a new one-unit segment is appended. */
  function AddTick(g: seq<Segment>, name: string, clock: int): seq<Segment> {
    if |g| == 0 || g[|g| - 1].name != name then g + [Segment(name, clock - 1, clock)]
    else g[..|g| - 1] + [g[|g| - 1].(end := clock)]
  }

  /** AddTick keeps the chart well formed, ends it at `clock`, and, when the
      extended segment reached the previous tick, adds exactly one unit to
      `name` and nothing to any other name. */
  lemma {:induction false} AddTickProperties(g: seq<Segment>, name: string, clock: int)
    requires WellFormed(g)
    requires g != [] ==> g[|g| - 1].end <= clock - 1
    ensures var r := AddTick(g, name, clock);
      && WellFormed(r)
      && r != [] && r[|r| - 1].end == clock && r[|r| - 1].name == name
      && |r| >= |g|
      && (g != [] && g[|g| - 1].name == name ==> |r| == |g|)
    ensures (g != [] && g[|g| - 1].name == name ==> g[|g| - 1].end == clock - 1) ==>
      forall n :: Busy(AddTick(g, name, clock), n) == Busy(g, n) + (if n == name then 1 else 0)
  {
    var r := AddTick(g, name, clock);
    if |g| == 0 || g[|g| - 1].name != name {
      AppendSegment(g, Segment(name, clock - 1, clock));
    } else {
      var init := g[..|g| - 1];
      var last := g[|g| - 1];
      assert g == init + [last];
      assert WellFormed(init);
      assert r == init + [last.(end := clock)];
      assert r[..|init|] == init;
      assert init != [] ==> init[|init| - 1].end <= last.start by {
        if init != [] {
          assert init[|init| - 1] == g[|g| - 2];
        }
      }
      AppendSegment(init, last.(end := clock));
      AppendSegment(init, last);
    }
  }
}
