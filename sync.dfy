/**
 * `main` of fetch_workouts_from_ryot.py once the source workout ids are known: the early
 * return on an empty source list, the reset or incremental reconciliation against the
 * bucket, and the write loop.
 */
module Sync {
  import Slug
  import Reconcile
  import Sink
  import Store

  /** The answer of `get_existing_workout_ids` against a bucket holding `before`. */
  function Existing(before: seq<Sink.Point>, queryFails: bool): Reconcile.ExistingQuery {
    if queryFails then Reconcile.QueryFailed else Reconcile.Rows(Store.SummaryIds(before))
  }

  /** `workouts_to_process`: nothing when the source list is empty. */
  function Planned(before: seq<Sink.Point>, reset: bool, source: seq<string>, queryFails: bool): seq<string> {
    if source == [] then [] else Reconcile.WorkList(reset, source, Existing(before, queryFails))
  }

  /** The points the bucket holds after a run that found it holding `before`. */
  function Synced(before: seq<Sink.Point>, reset: bool, source: seq<string>, queryFails: bool,
                  detailsOf: Sink.DetailsLookup, musclesOf: Sink.MusclesLookup): seq<Sink.Point>
  {
    var written := Sink.RunPoints(Planned(before, reset, source, queryFails), detailsOf, Slug.ParseExerciseId, musclesOf);
    if source == [] then before
    else if reset then written
    else before + written
  }

  /**
   * One run of `main` against `bucket`: returns `workouts_to_process` (empty when it returned
   * before reconciling). `queryFails` says whether the existing-id query raises.
   */
  method Run(bucket: Store.Bucket, reset: bool, source: seq<string>, queryFails: bool,
             detailsOf: Sink.DetailsLookup, musclesOf: Sink.MusclesLookup) returns (workList: seq<string>)
    modifies bucket
    ensures workList == Planned(old(bucket.points), reset, source, queryFails)
    ensures bucket.points == Synced(old(bucket.points), reset, source, queryFails, detailsOf, musclesOf)
  {
    if source == [] {
      return [];
    }
    if reset {
      bucket.Clear();
      workList := source;
    } else {
      var existing: Reconcile.ExistingQuery;
      if queryFails {
        existing := Reconcile.QueryFailed;
      } else {
        existing := Reconcile.Rows(bucket.ExistingIds());
      }
      workList := Reconcile.Unseen(source, Reconcile.ExistingIds(existing));
      if workList == [] {
        assert Sink.RunPoints(workList, detailsOf, Slug.ParseExerciseId, musclesOf) == [];
        assert bucket.points + [] == bucket.points;
        return;
      }
    }
    var log := Sink.WriteWorkouts(workList, detailsOf, musclesOf);
    bucket.Write(log);
  }

  // Properties of a run

  /** A reset run with a non-empty source list replaces the bucket's points with those of the whole source list. */
  lemma ResetReplacesAll(before: seq<Sink.Point>, source: seq<string>, queryFails: bool,
                         detailsOf: Sink.DetailsLookup, musclesOf: Sink.MusclesLookup)
    requires source != []
    ensures Synced(before, true, source, queryFails, detailsOf, musclesOf)
         == Sink.RunPoints(source, detailsOf, Slug.ParseExerciseId, musclesOf)
  {
    Reconcile.ResetProcessesAll(source, Existing(before, queryFails));
  }

  /** An incremental run keeps the bucket's points and appends those of the source ids not yet stored, in source order. */
  lemma IncrementalAppendsUnseen(before: seq<Sink.Point>, source: seq<string>,
                                 detailsOf: Sink.DetailsLookup, musclesOf: Sink.MusclesLookup)
    ensures Synced(before, false, source, false, detailsOf, musclesOf)
         == before + Sink.RunPoints(Reconcile.Unseen(source, Store.SummaryIds(before)), detailsOf, Slug.ParseExerciseId, musclesOf)
  {
    if source == [] {
      assert Reconcile.Unseen(source, Store.SummaryIds(before)) == [];
      assert before + [] == before;
    }
  }

  /** When the existing-id query fails, an incremental run writes every source workout again after what is stored. */
  lemma FailedQueryReimportsAll(before: seq<Sink.Point>, source: seq<string>,
                                detailsOf: Sink.DetailsLookup, musclesOf: Sink.MusclesLookup)
    ensures Synced(before, false, source, true, detailsOf, musclesOf)
         == before + Sink.RunPoints(source, detailsOf, Slug.ParseExerciseId, musclesOf)
  {
    if source == [] {
      assert before + [] == before;
    } else {
      Reconcile.FailedQueryProcessesAll(source);
    }
  }

  /** An incremental run whose source ids are all stored writes nothing, and conversely. */
  lemma NothingNewWritesNothing(before: seq<Sink.Point>, source: seq<string>,
                                detailsOf: Sink.DetailsLookup, musclesOf: Sink.MusclesLookup)
    ensures Planned(before, false, source, false) == [] <==> forall x :: x in source ==> x in Store.SummaryIds(before)
    ensures Planned(before, false, source, false) == [] ==> Synced(before, false, source, false, detailsOf, musclesOf) == before
  {
    Reconcile.NothingNew(source, Store.SummaryIds(before));
    if Planned(before, false, source, false) == [] {
      assert before + [] == before;
    }
  }

  /** After a run, the stored workout ids are the earlier ones (unless reset) plus the planned ids whose details were fetched. */
  lemma SyncedIds(before: seq<Sink.Point>, reset: bool, source: seq<string>, queryFails: bool,
                  detailsOf: Sink.DetailsLookup, musclesOf: Sink.MusclesLookup)
    ensures var after := Synced(before, reset, source, queryFails, detailsOf, musclesOf);
      var plan := Planned(before, reset, source, queryFails);
      forall x :: x in Store.SummaryIds(after) <==>
        ((source == [] || !reset) && x in Store.SummaryIds(before)) || (x in plan && detailsOf(x).Some?)
  {
    var plan := Planned(before, reset, source, queryFails);
    var written := Sink.RunPoints(plan, detailsOf, Slug.ParseExerciseId, musclesOf);
    Store.SummaryIdsOfRun(plan, detailsOf, Slug.ParseExerciseId, musclesOf);
    if source != [] && !reset {
      Store.SummaryIdsAppend(before, written);
    }
  }

  /**
   * Running again incrementally with the same answers retries exactly the source workouts
   * whose details could not be fetched and that were not stored before.
   */
  lemma RerunRetriesOnlyMissing(before: seq<Sink.Point>, reset: bool, source: seq<string>, queryFails: bool,
                                detailsOf: Sink.DetailsLookup, musclesOf: Sink.MusclesLookup)
    ensures var after := Synced(before, reset, source, queryFails, detailsOf, musclesOf);
      forall x :: x in Planned(after, false, source, false) <==>
        x in source && detailsOf(x).None? && (reset || x !in Store.SummaryIds(before))
  {
    var after := Synced(before, reset, source, queryFails, detailsOf, musclesOf);
    var plan := Planned(before, reset, source, queryFails);
    SyncedIds(before, reset, source, queryFails, detailsOf, musclesOf);
    if !reset {
      forall x | x in source && x !in Store.SummaryIds(before) ensures x in plan {
        if !queryFails {
          assert x in Reconcile.Unseen(source, Store.SummaryIds(before));
        } else {
          Reconcile.FailedQueryProcessesAll(source);
        }
      }
    } else {
      Reconcile.ResetProcessesAll(source, Existing(before, queryFails));
    }
  }

  /** In particular, once every source workout's details can be fetched, a second incremental run changes nothing. */
  lemma RerunIsNoOp(before: seq<Sink.Point>, reset: bool, source: seq<string>, queryFails: bool,
                    detailsOf: Sink.DetailsLookup, musclesOf: Sink.MusclesLookup)
    requires forall x :: x in source ==> detailsOf(x).Some?
    ensures var after := Synced(before, reset, source, queryFails, detailsOf, musclesOf);
      Synced(after, false, source, false, detailsOf, musclesOf) == after
  {
    var after := Synced(before, reset, source, queryFails, detailsOf, musclesOf);
    if source != [] {
      RerunRetriesOnlyMissing(before, reset, source, queryFails, detailsOf, musclesOf);
      NothingNewWritesNothing(after, source, detailsOf, musclesOf);
    } else {
      assert after + [] == after;
    }
  }

  /**
   * With distinct source ids, every set point a run writes belongs to a planned workout
   * that has exactly one summary point among the points written.
   */
  lemma OneSummaryPerWrittenSet(before: seq<Sink.Point>, reset: bool, source: seq<string>, queryFails: bool,
                                detailsOf: Sink.DetailsLookup, musclesOf: Sink.MusclesLookup, j: nat)
    requires forall a, b :: 0 <= a < b < |source| ==> source[a] != source[b]
    requires var written := Sink.RunPoints(Planned(before, reset, source, queryFails), detailsOf, Slug.ParseExerciseId, musclesOf);
      j < |written| && written[j].SetPoint?
    ensures var written := Sink.RunPoints(Planned(before, reset, source, queryFails), detailsOf, Slug.ParseExerciseId, musclesOf);
      written[j].workoutId in Planned(before, reset, source, queryFails) &&
      Sink.SummaryCount(written, written[j].workoutId) == 1
  {
    var plan := Planned(before, reset, source, queryFails);
    if source != [] {
      if reset {
        Reconcile.ResetProcessesAll(source, Existing(before, queryFails));
      } else {
        assert plan == Reconcile.Unseen(source, Reconcile.ExistingIds(Existing(before, queryFails)));
        Reconcile.UnseenDistinct(source, Reconcile.ExistingIds(Existing(before, queryFails)));
      }
    }
    assert forall a, b :: 0 <= a < b < |plan| ==> plan[a] != plan[b];
    var written := Sink.RunPoints(plan, detailsOf, Slug.ParseExerciseId, musclesOf);
    Sink.PointsComeFromWorkList(plan, detailsOf, Slug.ParseExerciseId, musclesOf);
    assert Sink.FromWorkList(written, plan, detailsOf);
    assert written[j].workoutId in plan;
    Sink.UniqueSummaryPerSet(plan, detailsOf, Slug.ParseExerciseId, musclesOf, j);
  }
}
