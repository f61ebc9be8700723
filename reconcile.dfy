/**
 * Reconciliation (the `--reset` / incremental branch of `main` and
 * `get_existing_workout_ids` in fetch_workouts_from_ryot.py): which source
 * workouts the run writes.
 */
module Reconcile {

  /** What the store returned for the query of workout ids that already have a summary record. */
  datatype ExistingQuery = Rows(ids: set<string>) | QueryFailed

  /** `get_existing_workout_ids`: a failed query is read as "nothing stored yet". */
  function ExistingIds(q: ExistingQuery): (r: set<string>)
    ensures q.Rows? ==> r == q.ids
    ensures q.QueryFailed? ==> r == {}
  {
    match q
    case Rows(ids) => ids
    case QueryFailed => {}
  }

  /** `[id for id in source if id not in existing]`. */
  function Unseen(source: seq<string>, existing: set<string>): (r: seq<string>)
    ensures |r| <= |source|
    ensures forall x :: x in r <==> x in source && x !in existing
  {
    if source == [] then []
    else if source[0] in existing then Unseen(source[1..], existing)
    else [source[0]] + Unseen(source[1..], existing)
  }

  /** The workouts a run processes: all of them after a reset, otherwise the ones not stored yet. */
  function WorkList(reset: bool, source: seq<string>, existing: ExistingQuery): (r: seq<string>)
    ensures |r| <= |source|
    ensures reset ==> r == source
    ensures forall x :: x in r <==> x in source && (reset || x !in ExistingIds(existing))
  {
    if reset then source else Unseen(source, ExistingIds(existing))
  }

  /** Strictly increasing positions, each inside a sequence of length `n`. */
  predicate IncreasingPositions(pos: seq<nat>, n: nat) {
    (forall i :: 0 <= i < |pos| ==> pos[i] < n) &&
    (forall i, j :: 0 <= i < j < |pos| ==> pos[i] < pos[j])
  }

  /** `pos` with every position moved one place to the right. */
  function Shift(pos: seq<nat>): (r: seq<nat>)
    ensures |r| == |pos| && forall i :: 0 <= i < |pos| ==> r[i] == pos[i] + 1
    ensures forall j :: 1 <= j ==> (j in r <==> j - 1 in pos)
    ensures 0 !in r
  {
    seq(|pos|, i requires 0 <= i < |pos| => pos[i] + 1)
  }

  /** Shifting keeps positions increasing, also with position 0 put in front. */
  lemma ShiftIncreasing(tail: seq<nat>, n: nat)
    requires IncreasingPositions(tail, n)
    ensures IncreasingPositions(Shift(tail), n + 1)
    ensures IncreasingPositions([0] + Shift(tail), n + 1)
  {
    var shifted := Shift(tail);
    var pos := [0] + shifted;
    forall i, j | 0 <= i < j < |shifted| ensures shifted[i] < shifted[j] {
      assert tail[i] < tail[j];
    }
    forall i, j | 0 <= i < j < |pos| ensures pos[i] < pos[j] {
      assert pos[j] == shifted[j - 1];
    }
  }

  /** Positions into `rest` become positions into `[first] + rest` once shifted. */
  lemma ShiftIndexes(first: string, rest: seq<string>, rt: seq<string>, tail: seq<nat>)
    requires |tail| == |rt| && forall i :: 0 <= i < |tail| ==> tail[i] < |rest| && rt[i] == rest[tail[i]]
    ensures forall i :: 0 <= i < |tail| ==> rt[i] == ([first] + rest)[Shift(tail)[i]]
    ensures forall i :: 0 <= i < |tail| + 1 ==> ([first] + rt)[i] == ([first] + rest)[([0] + Shift(tail))[i]]
  {
    var shifted := Shift(tail);
    var pos := [0] + shifted;
    forall i | 0 <= i < |tail| ensures rt[i] == ([first] + rest)[shifted[i]] {
      assert ([first] + rest)[tail[i] + 1] == rest[tail[i]];
    }
    forall i | 0 <= i < |tail| + 1 ensures ([first] + rt)[i] == ([first] + rest)[pos[i]] {
      if i > 0 { assert pos[i] == shifted[i - 1]; }
    }
  }

  /**
   * The incremental work list is exactly the source entries whose id is not stored, in source
   * order, repeated ids included: `pos` lists the positions of those entries in increasing order.
   */
  lemma {:induction false} UnseenPositions(source: seq<string>, existing: set<string>) returns (pos: seq<nat>)
    ensures var r := Unseen(source, existing);
      |pos| == |r| && IncreasingPositions(pos, |source|) &&
      (forall i :: 0 <= i < |pos| ==> r[i] == source[pos[i]]) &&
      (forall j :: 0 <= j < |source| ==> (j in pos <==> source[j] !in existing))
  {
    if source == [] {
      pos := [];
    } else {
      var first, rest := source[0], source[1..];
      assert source == [first] + rest;
      var rt := Unseen(rest, existing);
      var tail := UnseenPositions(rest, existing);
      var shifted := Shift(tail);
      ShiftIncreasing(tail, |rest|);
      ShiftIndexes(first, rest, rt, tail);
      assert forall j :: 1 <= j < |source| ==> (j in shifted <==> source[j] !in existing) by {
        forall j | 1 <= j < |source| ensures j in shifted <==> source[j] !in existing {
          assert source[j] == rest[j - 1];
        }
      }
      if first in existing {
        pos := shifted;
      } else {
        pos := [0] + shifted;
        assert forall j :: 1 <= j ==> (j in pos <==> j in shifted);
      }
    }
  }

  /** Every repeated id among the new workouts is kept as often as the source lists it. */
  lemma {:induction false} UnseenCounts(source: seq<string>, existing: set<string>, x: string)
    ensures multiset(Unseen(source, existing))[x] == if x in existing then 0 else multiset(source)[x]
  {
    if source != [] {
      var first, rest := source[0], source[1..];
      UnseenCounts(rest, existing, x);
      assert source == [first] + rest;
      assert multiset(source) == multiset([first]) + multiset(rest);
    }
  }

  /** With nothing stored, the incremental work list is the whole source list. */
  lemma {:induction false} UnseenOfNothing(source: seq<string>)
    ensures Unseen(source, {}) == source
  {
    if source != [] {
      UnseenOfNothing(source[1..]);
      assert source == [source[0]] + source[1..];
    }
  }

  /** After a reset every source workout is processed, whatever the store held. */
  lemma ResetProcessesAll(source: seq<string>, existing: ExistingQuery)
    ensures WorkList(true, source, existing) == source
  {
  }

  /** If the query for stored ids fails, an incremental run processes every source workout again. */
  lemma FailedQueryProcessesAll(source: seq<string>)
    ensures WorkList(false, source, QueryFailed) == source
  {
    UnseenOfNothing(source);
  }

  /** An incremental run has nothing to do exactly when every source id is already stored. */
  lemma NothingNew(source: seq<string>, existing: set<string>)
    ensures Unseen(source, existing) == [] <==> forall x :: x in source ==> x in existing
  {
    var r := Unseen(source, existing);
    if r != [] { assert r[0] in r; }
  }

  /** Distinct source ids give a distinct work list. */
  lemma {:induction false} UnseenDistinct(source: seq<string>, existing: set<string>)
    requires forall i, j :: 0 <= i < j < |source| ==> source[i] != source[j]
    ensures var r := Unseen(source, existing); forall i, j :: 0 <= i < j < |r| ==> r[i] != r[j]
  {
    var r := Unseen(source, existing);
    var pos := UnseenPositions(source, existing);
    forall i, j | 0 <= i < j < |r| ensures r[i] != r[j] {
      assert pos[i] < pos[j];
    }
  }
}
