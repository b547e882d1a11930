/** The pure parts of the engines' decision points: which processes are
    candidates (the filtering of the remaining list), which candidate wins
    (the fold over the candidates, first match on ties), the idle jump target
    (the earliest arrival), and the priority key with its fallback for a
    missing priority. */
module Selection {
  import opened SchedTypes

  /** Priority key of a process with no priority, per direction. */
  const HigherFirstFallback: int := 0
  const LowerFirstFallback: int := 999

  /** Whether the larger priority key wins. */
  predicate Maximizes(order: PriorityOrder) {
    order == HigherFirst
  }

  /** The priority of a process; a missing one counts as 0 when higher values
      run first and as 999 when lower values run first. */
  function PriorityKey(p: Process, order: PriorityOrder): int {
    match p.priority
    case Some(v) => v
    case None => if Maximizes(order) then HigherFirstFallback else LowerFirstFallback
  }

  /** The priority keys of all processes. */
  function PriorityKeys(procs: seq<Process>, order: PriorityOrder): (r: seq<int>)
    ensures |r| == |procs|
    ensures forall i :: 0 <= i < |procs| ==> r[i] == PriorityKey(procs[i], order)
  {
    seq(|procs|, i requires 0 <= i < |procs| => PriorityKey(procs[i], order))
  }

  /** The key a candidate must strictly exceed (`maximize`) or undercut to
      replace the current best in a reduce callback. */
  predicate Beats(maximize: bool, a: int, b: int) {
    if maximize then a > b else a < b
  }

  /** The winner of a left-to-right fold that replaces the best candidate
      only when the next one beats it, returned as its position in `cands`:
      no candidate beats it, and it beats every candidate before it (so ties
      go to the first match). */
  function Reduce(cands: seq<nat>, key: seq<int>, maximize: bool): (k: nat)
    requires |cands| > 0
    requires forall m :: 0 <= m < |cands| ==> cands[m] < |key|
    ensures k < |cands|
    ensures forall m :: 0 <= m < |cands| ==> !Beats(maximize, key[cands[m]], key[cands[k]])
    ensures forall m :: 0 <= m < k ==> Beats(maximize, key[cands[k]], key[cands[m]])
  {
    ReduceFrom(cands, key, maximize, 0, 1)
  }

  /** The fold of Reduce, with `best` the winner among cands[..m]. */
  function ReduceFrom(cands: seq<nat>, key: seq<int>, maximize: bool, best: nat, m: nat): (k: nat)
    requires best < m <= |cands|
    requires forall i :: 0 <= i < |cands| ==> cands[i] < |key|
    requires forall i :: 0 <= i < m ==> !Beats(maximize, key[cands[i]], key[cands[best]])
    requires forall i :: 0 <= i < best ==> Beats(maximize, key[cands[best]], key[cands[i]])
    ensures k < |cands|
    ensures forall i :: 0 <= i < |cands| ==> !Beats(maximize, key[cands[i]], key[cands[k]])
    ensures forall i :: 0 <= i < k ==> Beats(maximize, key[cands[k]], key[cands[i]])
    decreases |cands| - m
  {
    if m == |cands| then best
    else if Beats(maximize, key[cands[m]], key[cands[best]]) then
      assert forall i :: 0 <= i < m + 1 ==> !Beats(maximize, key[cands[i]], key[cands[m]]) by {
        forall i | 0 <= i < m + 1 ensures !Beats(maximize, key[cands[i]], key[cands[m]]) {
          if i < m {
            assert !Beats(maximize, key[cands[i]], key[cands[best]]);
          }
        }
      }
      ReduceFrom(cands, key, maximize, m, m + 1)
    else ReduceFrom(cands, key, maximize, best, m + 1)
  }

  /** In a list of candidates in increasing index order, the winner of
      Reduce is beaten by nobody and wins every tie against a larger index. */
  lemma ReduceWinner(cands: seq<nat>, key: seq<int>, maximize: bool, j: nat)
    requires |cands| > 0 && StrictlyIncreasing(cands)
    requires forall m :: 0 <= m < |cands| ==> cands[m] < |key|
    requires j in cands
    ensures var w := cands[Reduce(cands, key, maximize)];
      !Beats(maximize, key[j], key[w]) && (key[j] == key[w] ==> w <= j)
  {
  }

  /** The remaining processes that have arrived by `clock`, in their order, as positions. */
  function Arrived(procs: seq<Process>, remaining: seq<nat>, clock: int): (r: seq<nat>)
    requires forall k :: 0 <= k < |remaining| ==> remaining[k] < |procs|
    ensures forall k :: 0 <= k < |r| ==> r[k] < |procs|
    ensures forall j :: j in r <==> j in remaining && procs[j].arrival <= clock
    ensures StrictlyIncreasing(remaining) ==> StrictlyIncreasing(r)
  {
    if remaining == [] then []
    else
      var init := remaining[..|remaining| - 1];
      var last := remaining[|remaining| - 1];
      assert remaining == init + [last];
      var r0 := Arrived(procs, init, clock);
      assert StrictlyIncreasing(remaining) ==> forall k :: 0 <= k < |r0| ==> r0[k] < last by {
        if StrictlyIncreasing(remaining) {
          forall k | 0 <= k < |r0| ensures r0[k] < last {
            assert r0[k] in init;
          }
        }
      }
      if procs[last].arrival <= clock then r0 + [last] else r0
  }

  /** The processes that have arrived by `clock` and still need time, in input
      order, as positions of the working array. */
  function Available(work: seq<Work>, clock: int): (r: seq<nat>)
    ensures forall k :: 0 <= k < |r| ==> r[k] < |work|
    ensures forall j :: j in r <==> 0 <= j < |work| && work[j].process.arrival <= clock && work[j].remaining > 0
    ensures StrictlyIncreasing(r)
  {
    if work == [] then []
    else
      var n := |work| - 1;
      var r0 := Available(work[..n], clock);
      if work[n].process.arrival <= clock && work[n].remaining > 0 then r0 + [n] else r0
  }

  /** The earliest arrival time among the remaining processes: the idle jump target. */
  function MinArrival(procs: seq<Process>, remaining: seq<nat>): (r: int)
    requires |remaining| > 0
    requires forall k :: 0 <= k < |remaining| ==> remaining[k] < |procs|
    ensures exists k :: 0 <= k < |remaining| && procs[remaining[k]].arrival == r
    ensures forall k :: 0 <= k < |remaining| ==> r <= procs[remaining[k]].arrival
  {
    if |remaining| == 1 then procs[remaining[0]].arrival
    else Min(procs[remaining[0]].arrival, MinArrival(procs, remaining[1..]))
  }

  /** A missing priority never wins against a candidate whose priority is
      strictly between the two fallback values, in either direction. */
  lemma {:induction false} PriorityFallbackLoses(procs: seq<Process>, cands: seq<nat>, order: PriorityOrder, j: nat)
    requires |cands| > 0
    requires forall m :: 0 <= m < |cands| ==> cands[m] < |procs|
    requires j in cands && procs[j].priority.Some?
    requires HigherFirstFallback < procs[j].priority.value < LowerFirstFallback
    ensures var w := cands[Reduce(cands, PriorityKeys(procs, order), Maximizes(order))];
      procs[w].priority.Some?
  {
    var keys := PriorityKeys(procs, order);
    var w := cands[Reduce(cands, keys, Maximizes(order))];
    var m :| 0 <= m < |cands| && cands[m] == j;
    assert !Beats(Maximizes(order), keys[j], keys[w]);
  }
}
