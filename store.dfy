/**
 * The InfluxDB bucket as fetch_workouts_from_ryot.py uses it: the points written to the
 * `workouts` and `workout_summary` measurements, in write order, the delete of both
 * measurements, and the query for the workout ids already stored.
 */
module Store {
  import Sink

  /**
   * The `workout_id` tags of the summary points of `points`: what the query of
   * `get_existing_workout_ids` returns when it succeeds.
   */
  function SummaryIds(points: seq<Sink.Point>): (r: set<string>)
    ensures forall x :: x in r <==> exists k :: 0 <= k < |points| && points[k].SummaryPoint? && points[k].workoutId == x
  {
    if points == [] then {}
    else
      var init, last := points[..|points| - 1], points[|points| - 1];
      var r := SummaryIds(init) + (if last.SummaryPoint? then {last.workoutId} else {});
      assert forall k :: 0 <= k < |init| ==> init[k] == points[k];
      r
  }

  /** A workout id is stored exactly when the bucket holds at least one summary point for it. */
  lemma {:induction false} SummaryIdsCount(points: seq<Sink.Point>, x: string)
    ensures x in SummaryIds(points) <==> Sink.SummaryCount(points, x) > 0
  {
    if points != [] {
      SummaryIdsCount(points[..|points| - 1], x);
    }
  }

  /** Writing more points adds the ids of their summaries to the stored ones. */
  lemma SummaryIdsAppend(a: seq<Sink.Point>, b: seq<Sink.Point>)
    ensures SummaryIds(a + b) == SummaryIds(a) + SummaryIds(b)
  {
    forall x ensures x in SummaryIds(a + b) <==> x in SummaryIds(a) + SummaryIds(b) {
      SummaryIdsCount(a + b, x);
      SummaryIdsCount(a, x);
      SummaryIdsCount(b, x);
      Sink.SummaryCountAppend(a, b, x);
    }
  }

  /** After a run over `ids`, the stored ids it added are those of `ids` whose details were fetched. */
  lemma SummaryIdsOfRun(ids: seq<string>, detailsOf: Sink.DetailsLookup, nameOf: Sink.Namer, musclesOf: Sink.MusclesLookup)
    ensures forall x :: x in SummaryIds(Sink.RunPoints(ids, detailsOf, nameOf, musclesOf)) <==> x in ids && detailsOf(x).Some?
  {
    forall x ensures x in SummaryIds(Sink.RunPoints(ids, detailsOf, nameOf, musclesOf)) <==> x in ids && detailsOf(x).Some? {
      SummaryIdsCount(Sink.RunPoints(ids, detailsOf, nameOf, musclesOf), x);
      Sink.SummaryCountOfRun(ids, detailsOf, nameOf, musclesOf, x);
      assert x in ids <==> multiset(ids)[x] > 0;
    }
  }

  /** The bucket: the points of both measurements, in the order they were written. */
  class Bucket {
    var points: seq<Sink.Point>

    constructor (points: seq<Sink.Point>)
      ensures this.points == points
    {
      this.points := points;
    }

    /** The ids the query of `get_existing_workout_ids` returns when it succeeds. */
    function ExistingIds(): set<string>
      reads this
    {
      SummaryIds(points)
    }

    /**
     * `clear_influxdb_measurements`: deletes both measurements over the whole time range.
     * Every point of this model belongs to one of them, so the bucket is left empty.
     */
    method Clear()
      modifies this
      ensures points == []
    {
      points := [];
    }

    /** One synchronous `write_api.write` per point, in order. */
    method Write(batch: seq<Sink.Point>)
      modifies this
      ensures points == old(points) + batch
    {
      points := points + batch;
    }
  }
}
