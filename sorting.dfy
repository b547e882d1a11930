/** The stable sorts the engines rely on (JavaScript's Array.prototype.sort with
    a numeric comparator), modelled once: sort the positions of a list by a key
    attached to each position, ties kept in list order. FCFS and round robin
    sort by arrival time; SRTF, round robin and preemptive priority restore the
    input order of their results by sorting on `findIndex` of the process id. */
module Sorting {
  import opened SchedTypes

  /** Strict order on positions: smaller key first, equal keys by position. */
  predicate LexBefore(keys: seq<int>, a: nat, b: nat)
    requires a < |keys| && b < |keys|
  {
    keys[a] < keys[b] || (keys[a] == keys[b] && a < b)
  }

  predicate InBounds(s: seq<nat>, n: nat) {
    forall k :: 0 <= k < |s| ==> s[k] < n
  }

  predicate LexSorted(s: seq<nat>, keys: seq<int>)
    requires InBounds(s, |keys|)
  {
    forall k, m :: 0 <= k < m < |s| ==> LexBefore(keys, s[k], s[m])
  }

  /** Insert `x` before the first element whose key is not smaller. */
  function Insert(x: nat, s: seq<nat>, keys: seq<int>): (r: seq<nat>)
    requires x < |keys| && InBounds(s, |keys|)
    ensures |r| == |s| + 1 && InBounds(r, |keys|)
    ensures forall y :: y in r <==> y == x || y in s
    ensures LexSorted(s, keys) && (forall k :: 0 <= k < |s| ==> x < s[k]) ==> LexSorted(r, keys)
  {
    if s == [] || keys[x] <= keys[s[0]] then [x] + s
    else
      var t := Insert(x, s[1..], keys);
      assert LexSorted(s, keys) && (forall k :: 0 <= k < |s| ==> x < s[k]) ==> LexSorted([s[0]] + t, keys) by {
        if LexSorted(s, keys) && (forall k :: 0 <= k < |s| ==> x < s[k]) {
          forall m | 0 <= m < |t| ensures LexBefore(keys, s[0], t[m]) {
            if t[m] != x {
              assert t[m] in s[1..];
              var j :| 0 <= j < |s| - 1 && s[1..][j] == t[m];
              assert s[j + 1] == t[m];
            }
          }
        }
      }
      [s[0]] + t
  }

  /** Insertion sort of `s` by `keys`; stable when `s` is increasing. */
  function SortByKey(s: seq<nat>, keys: seq<int>): (r: seq<nat>)
    requires InBounds(s, |keys|)
    ensures |r| == |s| && InBounds(r, |keys|)
    ensures forall y :: y in r <==> y in s
    ensures StrictlyIncreasing(s) ==> LexSorted(r, keys)
  {
    if s == [] then []
    else
      var t := SortByKey(s[1..], keys);
      assert StrictlyIncreasing(s) ==> forall k :: 0 <= k < |t| ==> s[0] < t[k] by {
        if StrictlyIncreasing(s) {
          forall k | 0 <= k < |t| ensures s[0] < t[k] {
            assert t[k] in s[1..];
          }
        }
      }
      Insert(s[0], t, keys)
  }

  /** The positions 0..|keys|-1 in stable key order: every position exactly
      once, keys non-decreasing, equal keys in position order. */
  function SortedPositions(keys: seq<int>): (r: seq<nat>)
    ensures IsPermutation(r, |keys|)
    ensures LexSorted(r, keys)
    ensures forall k, m :: 0 <= k < m < |r| ==> keys[r[k]] <= keys[r[m]]
    ensures forall k, m :: 0 <= k < m < |r| && keys[r[k]] == keys[r[m]] ==> r[k] < r[m]
  {
    var s := Range(0, |keys|);
    SortByKey(s, keys)
  }

  /** Sorting the positions of a permutation of 0..n-1 by their values
      orders the positions so that position k carries value k. */
  lemma {:induction false} SortedPositionsOfPermutation(keys: seq<int>)
    requires forall k :: 0 <= k < |keys| ==> 0 <= keys[k] < |keys|
    requires forall k, m :: 0 <= k < m < |keys| ==> keys[k] != keys[m]
    ensures forall k :: 0 <= k < |keys| ==> keys[SortedPositions(keys)[k]] == k
  {
    var r := SortedPositions(keys);
    var n := |keys|;
    var v := seq(n, k requires 0 <= k < n => keys[r[k]]);
    assert forall k :: 0 <= k < n ==> 0 <= v[k] < n;
    assert forall k, m :: 0 <= k < m < n ==> v[k] < v[m] by {
      forall k, m | 0 <= k < m < n ensures v[k] < v[m] {
        assert r[k] != r[m];
        assert keys[r[k]] != keys[r[m]];
      }
    }
    forall k | 0 <= k < n ensures keys[r[k]] == k {
      IncreasingFloor(v, k);
      IncreasingCeiling(v, k, n);
      assert keys[r[k]] == v[k];
    }
  }

  lemma {:induction false} IncreasingFloor(v: seq<int>, k: nat)
    requires k < |v|
    requires forall i :: 0 <= i < |v| ==> 0 <= v[i]
    requires forall i, j :: 0 <= i < j < |v| ==> v[i] < v[j]
    ensures v[k] >= k
  {
    if k > 0 {
      IncreasingFloor(v, k - 1);
    }
  }

  lemma {:induction false} IncreasingCeiling(v: seq<int>, k: nat, n: nat)
    requires k < |v| == n
    requires forall i :: 0 <= i < |v| ==> v[i] < n
    requires forall i, j :: 0 <= i < j < |v| ==> v[i] < v[j]
    ensures v[k] <= k
    decreases n - k
  {
    if k < n - 1 {
      IncreasingCeiling(v, k + 1, n);
    }
  }

  /** JavaScript's `findIndex` on the process id: the first position with that
      id, or -1. */
  function FindIndex(procs: seq<Process>, id: string): (r: int)
    ensures r == -1 <==> forall i :: 0 <= i < |procs| ==> procs[i].id != id
    ensures r != -1 ==> 0 <= r < |procs| && procs[r].id == id
    ensures forall i :: 0 <= i < r ==> procs[i].id != id
  {
    if |procs| == 0 then -1
    else if procs[0].id == id then 0
    else
      var k := FindIndex(procs[1..], id);
      if k == -1 then -1 else k + 1
  }

  /** The first position of `x` in `s`. */
  function IndexOf(s: seq<nat>, x: nat): (r: nat)
    requires x in s
    ensures r < |s| && s[r] == x
    ensures forall k :: 0 <= k < r ==> s[k] != x
  {
    if s[0] == x then 0 else 1 + IndexOf(s[1..], x)
  }

  /** The records sorted, stably, by the input position of their process id. */
  function SortByInputPosition(procs: seq<Process>, records: seq<ProcResult>): (r: seq<ProcResult>)
    ensures |r| == |records|
  {
    var keys := seq(|records|, k requires 0 <= k < |records| => FindIndex(procs, records[k].process.id));
    var perm := SortedPositions(keys);
    seq(|records|, k requires 0 <= k < |records| => records[perm[k]])
  }

  /** With distinct ids, re-sorting one record per input process by input
      position puts the record of process i at position i. */
  lemma {:induction false} SortByInputPositionRestoresOrder(procs: seq<Process>, records: seq<ProcResult>, order: seq<nat>)
    requires DistinctIds(procs)
    requires IsPermutation(order, |procs|) && |records| == |order|
    requires forall k :: 0 <= k < |records| ==> records[k].process == procs[order[k]]
    ensures var out := SortByInputPosition(procs, records);
      forall i :: 0 <= i < |procs| ==> i in order && out[i] == records[IndexOf(order, i)] && out[i].process == procs[i]
  {
    var n := |records|;
    var keys := seq(n, k requires 0 <= k < n => FindIndex(procs, records[k].process.id));
    forall k | 0 <= k < n ensures keys[k] == order[k] {
      assert records[k].process.id == procs[order[k]].id;
    }
    SortedPositionsOfPermutation(keys);
    var perm := SortedPositions(keys);
    forall i | 0 <= i < n ensures i in order && perm[i] == IndexOf(order, i) {
      assert order[perm[i]] == i;
      assert perm[i] == IndexOf(order, i);
    }
  }
}
