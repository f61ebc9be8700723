/**
 * The write phase of `main` in fetch_workouts_from_ryot.py: every workout with
 * details becomes one summary point followed by one point per set, written in
 * workout, then exercise, then set order.
 *
 * The GraphQL lookups are function parameters; the points written are the
 * sequence a method returns, in write order.
 */
module Sink {
  import opened Wrappers
  import Slug

  /** Measurement of the per-set points. */
  const WorkoutMeasurement: string := "workouts"
  /** Measurement of the per-workout summary points. */
  const SummaryMeasurement: string := "workout_summary"

  /** A `reps` or `weight` entry of a set's `statistic`: no such key, JSON null, or a number. */
  datatype StatValue = Absent | Null | Number(value: real)
  /** `statistic` of a set. */
  datatype Statistic = Statistic(reps: StatValue, weight: StatValue)
  datatype WorkoutSet = WorkoutSet(statistic: Statistic)
  /** An exercise of a workout; `sets` is None when the key is absent. */
  datatype Exercise = Exercise(id: string, sets: Option<seq<WorkoutSet>>)
  datatype Information = Information(exercises: Option<seq<Exercise>>)
  /** The `details` object of a workout; `information` is None when the key is absent. */
  datatype WorkoutDetails = WorkoutDetails(
    name: string, duration: real, startTime: string, endTime: string, information: Option<Information>)
  /** The answer to the exercise query; `muscles` is None when absent or null. */
  datatype ExerciseDetails = ExerciseDetails(muscles: Option<seq<string>>)

  /** A point written to the store: its tags, fields and timestamp. */
  datatype Point =
    | SummaryPoint(workoutId: string, workoutName: string, duration: real, time: string)
    | SetPoint(workoutId: string, workoutName: string, exerciseName: string, muscles: Option<string>,
               reps: real, weight: real, volume: real, setNumber: real, workoutDuration: real, time: string)
  {
    function Measurement(): string {
      if SummaryPoint? then SummaryMeasurement else WorkoutMeasurement
    }
  }

  /** `get_workout_details`: None when the fetch failed or returned no data. */
  type DetailsLookup = string -> Option<WorkoutDetails>
  /** `get_exercise_details`: None when the fetch failed or returned no data. */
  type MusclesLookup = string -> Option<ExerciseDetails>
  /** How an exercise id becomes the `exercise_name` tag; the write loop uses `Slug.ParseExerciseId`. */
  type Namer = string -> string

  /** The exercises of a workout; none when `information` or `exercises` is absent. */
  function Exercises(d: WorkoutDetails): (r: seq<Exercise>)
    ensures d.information.Some? && d.information.value.exercises.Some? ==> r == d.information.value.exercises.value
    ensures !(d.information.Some? && d.information.value.exercises.Some?) ==> r == []
  {
    match d.information
    case Some(Information(Some(exs))) => exs
    case _ => []
  }

  /** The muscle labels of an exercise; none when the lookup failed or has no `muscles`. */
  function MuscleLabels(info: Option<ExerciseDetails>): (r: seq<string>)
    ensures info.Some? && info.value.muscles.Some? ==> r == info.value.muscles.value
    ensures !(info.Some? && info.value.muscles.Some?) ==> r == []
  {
    match info
    case Some(ExerciseDetails(Some(m))) => m
    case _ => []
  }

  /** `",".join(labels)`. */
  function Join(labels: seq<string>): (r: string)
    ensures |labels| == 0 ==> r == ""
    ensures |labels| == 1 ==> r == labels[0]
    ensures |labels| > 1 ==> labels[0] + "," <= r
  {
    if |labels| == 0 then ""
    else if |labels| == 1 then labels[0]
    else labels[0] + "," + Join(labels[1..])
  }

  /** `s.split(",")`: the pieces between commas, always at least one. */
  function Split(s: string): (r: seq<string>)
    ensures |r| >= 1
  {
    if s == [] then [""]
    else
      var rest := Split(s[1..]);
      if s[0] == ',' then [""] + rest else [[s[0]] + rest[0]] + rest[1..]
  }

  lemma {:induction false} SplitAfterLabel(a: string, b: string)
    requires ',' !in a
    ensures Split(a + "," + b) == [a] + Split(b)
  {
    if a == [] {
      assert a + "," + b == [','] + b;
    } else {
      assert (a + "," + b)[1..] == a[1..] + "," + b;
      SplitAfterLabel(a[1..], b);
      assert [a[0]] + a[1..] == a;
    }
  }

  /** Splitting the `muscles` tag at commas gives the labels back when no label holds a comma. */
  lemma {:induction false} SplitJoin(labels: seq<string>)
    requires |labels| > 0 && forall k :: 0 <= k < |labels| ==> ',' !in labels[k]
    ensures Split(Join(labels)) == labels
  {
    if |labels| == 1 {
      SplitNoComma(labels[0]);
    } else {
      SplitAfterLabel(labels[0], Join(labels[1..]));
      SplitJoin(labels[1..]);
    }
  }

  lemma {:induction false} SplitNoComma(a: string)
    requires ',' !in a
    ensures Split(a) == [a]
  {
    if a != [] {
      SplitNoComma(a[1..]);
      assert [a[0]] + a[1..] == a;
    }
  }

  /** The `muscles` tag: present only for a non-empty label list. */
  function MusclesTag(labels: seq<string>): (r: Option<string>)
    ensures r.Some? <==> |labels| > 0
    ensures r.Some? ==> r.value == Join(labels)
  {
    if |labels| == 0 then None else Some(Join(labels))
  }

  /**
   * `float(statistic.get(key, 0))` as written: an absent key gives 0.0 and a number gives
   * itself, but a null reaches `float(None)`, which raises (None here).
   */
  function FloatOfStatAsWritten(v: StatValue): Option<real> {
    match v
    case Absent => Some(0.0)
    case Null => None
    case Number(x) => Some(x)
  }

  /** The value of a `reps` or `weight` entry as intended: a missing value, absent or null, counts as 0. */
  function FloatOfStat(v: StatValue): real {
    if v.Number? then v.value else 0.0
  }

  /**
   * The two readings agree wherever the code as written returns a value, and the intended one
   * never fails; they differ exactly on a null entry, where the code as written raises.
   */
  lemma FloatOfStatCorrects(v: StatValue)
    ensures FloatOfStatAsWritten(v).Some? ==> FloatOfStatAsWritten(v).value == FloatOfStat(v)
    ensures FloatOfStatAsWritten(v).None? <==> v.Null?
    ensures !v.Number? ==> FloatOfStat(v) == 0.0
  {
  }

  /**
   * A set with `reps` 10 and a null `weight`: the code as written raises on it, stopping the whole
   * import, where a missing weight is meant to count as 0 and give volume 0.
   */
  lemma NullWeightRaises()
    ensures var s := Statistic(Number(10.0), Null);
      FloatOfStatAsWritten(s.weight).None? &&
      FloatOfStat(s.reps) * FloatOfStat(s.weight) == 0.0
  {
  }

  /** The point for the set at 0-based index `i` of an exercise. */
  function SetRecord(workoutId: string, d: WorkoutDetails, exerciseName: string, tag: Option<string>,
                     i: nat, s: WorkoutSet): (r: Point)
    ensures r.SetPoint? && r.workoutId == workoutId && r.workoutName == d.name && r.exerciseName == exerciseName
    ensures r.muscles == tag && r.setNumber == (i + 1) as real
    ensures r.reps == FloatOfStat(s.statistic.reps) && r.weight == FloatOfStat(s.statistic.weight)
    ensures r.volume == r.reps * r.weight && r.workoutDuration == d.duration && r.time == d.endTime
  {
    var reps := FloatOfStat(s.statistic.reps);
    var weight := FloatOfStat(s.statistic.weight);
    SetPoint(workoutId, d.name, exerciseName, tag, reps, weight, reps * weight, (i + 1) as real,
             d.duration, d.endTime)
  }

  /** The points of an exercise's sets, in set order, given its slug and muscle labels. */
  function SetPoints(workoutId: string, d: WorkoutDetails, exerciseName: string, labels: seq<string>,
                     sets: seq<WorkoutSet>): seq<Point>
  {
    seq(|sets|, i requires 0 <= i < |sets| => SetRecord(workoutId, d, exerciseName, MusclesTag(labels), i, sets[i]))
  }

  /** The points of one exercise: none without a `sets` key. */
  function ExercisePoints(workoutId: string, d: WorkoutDetails, e: Exercise, nameOf: Namer, musclesOf: MusclesLookup): seq<Point> {
    match e.sets
    case None => []
    case Some(sets) => SetPoints(workoutId, d, nameOf(e.id), MuscleLabels(musclesOf(e.id)), sets)
  }

  /** The set points of a list of exercises, exercise by exercise. */
  function ExercisesPoints(workoutId: string, d: WorkoutDetails, exs: seq<Exercise>, nameOf: Namer, musclesOf: MusclesLookup): seq<Point> {
    if exs == [] then []
    else ExercisesPoints(workoutId, d, exs[..|exs| - 1], nameOf, musclesOf) + ExercisePoints(workoutId, d, exs[|exs| - 1], nameOf, musclesOf)
  }

  /** The points of a workout: its summary, then its set points. */
  function WorkoutPoints(workoutId: string, d: WorkoutDetails, nameOf: Namer, musclesOf: MusclesLookup): seq<Point> {
    [SummaryPoint(workoutId, d.name, d.duration, d.startTime)] + ExercisesPoints(workoutId, d, Exercises(d), nameOf, musclesOf)
  }

  /** The points written for one work-list entry: none when its details cannot be fetched. */
  function PointsFor(workoutId: string, detailsOf: DetailsLookup, nameOf: Namer, musclesOf: MusclesLookup): seq<Point> {
    match detailsOf(workoutId)
    case None => []
    case Some(d) => WorkoutPoints(workoutId, d, nameOf, musclesOf)
  }

  /** The points written for a work list, workout by workout. */
  function RunPoints(ids: seq<string>, detailsOf: DetailsLookup, nameOf: Namer, musclesOf: MusclesLookup): seq<Point> {
    if ids == [] then []
    else RunPoints(ids[..|ids| - 1], detailsOf, nameOf, musclesOf) + PointsFor(ids[|ids| - 1], detailsOf, nameOf, musclesOf)
  }

  /** One more exercise appends its set points. */
  lemma ExercisesPointsStep(workoutId: string, d: WorkoutDetails, exs: seq<Exercise>, e: nat, nameOf: Namer, musclesOf: MusclesLookup)
    requires e < |exs|
    ensures ExercisesPoints(workoutId, d, exs[..e + 1], nameOf, musclesOf)
         == ExercisesPoints(workoutId, d, exs[..e], nameOf, musclesOf) + ExercisePoints(workoutId, d, exs[e], nameOf, musclesOf)
  {
    assert exs[..e + 1][..e] == exs[..e];
  }

  /** How many sets an exercise has (none without a `sets` key). */
  function SetCount(e: Exercise): nat {
    match e.sets
    case None => 0
    case Some(sets) => |sets|
  }

  /** How many sets a list of exercises has. */
  function SetTotal(exs: seq<Exercise>): nat {
    if exs == [] then 0 else SetTotal(exs[..|exs| - 1]) + SetCount(exs[|exs| - 1])
  }

  /** The inner loop: one point per set, numbered from 1, with the muscles tag only when there are labels. */
  method WriteSets(workoutId: string, d: WorkoutDetails, exerciseName: string, muscles: seq<string>,
                   sets: seq<WorkoutSet>) returns (points: seq<Point>)
    ensures points == SetPoints(workoutId, d, exerciseName, muscles, sets)
  {
    points := [];
    for i := 0 to |sets|
      invariant |points| == i
      invariant forall k :: 0 <= k < i ==> points[k] == SetPoints(workoutId, d, exerciseName, muscles, sets)[k]
    {
      var s := sets[i];
      var setNumber := (i + 1) as real;
      var reps := FloatOfStat(s.statistic.reps);
      var weight := FloatOfStat(s.statistic.weight);
      var volume := reps * weight;
      var tag: Option<string> := None;
      if |muscles| > 0 {
        tag := Some(Join(muscles));
      }
      points := points + [SetPoint(workoutId, d.name, exerciseName, tag, reps, weight, volume,
                                   setNumber, d.duration, d.endTime)];
    }
  }

  /** The points written for one exercise: its slug, then its muscle lookup and its sets. */
  method WriteExercise(workoutId: string, d: WorkoutDetails, exercise: Exercise, musclesOf: MusclesLookup)
    returns (points: seq<Point>)
    ensures points == ExercisePoints(workoutId, d, exercise, Slug.ParseExerciseId, musclesOf)
  {
    var exerciseName := Slug.ParseExerciseId(exercise.id);
    points := WriteNamedExercise(workoutId, d, exercise, exerciseName, musclesOf);
  }

  /** The muscle lookup and the sets of one exercise, once its slug is known. */
  method WriteNamedExercise(workoutId: string, d: WorkoutDetails, exercise: Exercise, exerciseName: string,
                            musclesOf: MusclesLookup) returns (points: seq<Point>)
    ensures points == if exercise.sets.None? then []
                      else SetPoints(workoutId, d, exerciseName, MuscleLabels(musclesOf(exercise.id)), exercise.sets.value)
  {
    var exerciseDetails := musclesOf(exercise.id);
    var muscles: seq<string> := [];
    if exerciseDetails.Some? && exerciseDetails.value.muscles.Some? {
      muscles := exerciseDetails.value.muscles.value;
    }
    points := [];
    if exercise.sets.Some? {
      points := WriteSets(workoutId, d, exerciseName, muscles, exercise.sets.value);
    }
  }

  /** The exercise loop of a workout: the set points of each exercise in turn. */
  method WriteExercises(workoutId: string, d: WorkoutDetails, exercises: seq<Exercise>, musclesOf: MusclesLookup)
    returns (points: seq<Point>)
    ensures points == ExercisesPoints(workoutId, d, exercises, Slug.ParseExerciseId, musclesOf)
  {
    points := [];
    for e := 0 to |exercises|
      invariant points == ExercisesPoints(workoutId, d, exercises[..e], Slug.ParseExerciseId, musclesOf)
    {
      ExercisesPointsStep(workoutId, d, exercises, e, Slug.ParseExerciseId, musclesOf);
      var setPoints := WriteExercise(workoutId, d, exercises[e], musclesOf);
      points := points + setPoints;
    }
    assert exercises[..|exercises|] == exercises;
  }

  /** The points written for one workout: its summary first, then the set points of its exercises. */
  method WriteWorkout(workoutId: string, d: WorkoutDetails, musclesOf: MusclesLookup) returns (points: seq<Point>)
    ensures points == WorkoutPoints(workoutId, d, Slug.ParseExerciseId, musclesOf)
  {
    points := [SummaryPoint(workoutId, d.name, d.duration, d.startTime)];
    if d.information.Some? && d.information.value.exercises.Some? {
      var setPoints := WriteExercises(workoutId, d, d.information.value.exercises.value, musclesOf);
      points := points + setPoints;
    }
  }

  /** The write loop: each workout id in turn, skipping those whose details cannot be fetched. */
  method WriteWorkouts(ids: seq<string>, detailsOf: DetailsLookup, musclesOf: MusclesLookup) returns (log: seq<Point>)
    ensures log == RunPoints(ids, detailsOf, Slug.ParseExerciseId, musclesOf)
  {
    log := [];
    for w := 0 to |ids|
      invariant log == RunPoints(ids[..w], detailsOf, Slug.ParseExerciseId, musclesOf)
    {
      assert ids[..w + 1][..w] == ids[..w];
      var details := detailsOf(ids[w]);
      if details.None? {
        continue;
      }
      var points := WriteWorkout(ids[w], details.value, musclesOf);
      log := log + points;
    }
    assert ids[..|ids|] == ids;
  }

  // Properties of the points a run writes

  /** One set point per set. */
  lemma {:induction false} ExercisesPointsCount(workoutId: string, d: WorkoutDetails, exs: seq<Exercise>, nameOf: Namer, musclesOf: MusclesLookup)
    ensures |ExercisesPoints(workoutId, d, exs, nameOf, musclesOf)| == SetTotal(exs)
  {
    if exs != [] {
      ExercisesPointsCount(workoutId, d, exs[..|exs| - 1], nameOf, musclesOf);
    }
  }

  /** `p` is a set point of workout `workoutId`, carrying its name and duration, at its end time. */
  predicate IsSetPointOf(p: Point, workoutId: string, d: WorkoutDetails) {
    p.SetPoint? && p.workoutId == workoutId && p.workoutName == d.name &&
    p.workoutDuration == d.duration && p.time == d.endTime
  }

  lemma ExercisePointsShape(workoutId: string, d: WorkoutDetails, e: Exercise, nameOf: Namer, musclesOf: MusclesLookup)
    ensures var ps := ExercisePoints(workoutId, d, e, nameOf, musclesOf);
      |ps| == SetCount(e) && forall k :: 0 <= k < |ps| ==> IsSetPointOf(ps[k], workoutId, d)
  {
  }

  /** The points of a list of exercises are all set points of this workout, one per set. */
  lemma {:induction false} ExercisesPointsShape(workoutId: string, d: WorkoutDetails, exs: seq<Exercise>, nameOf: Namer, musclesOf: MusclesLookup)
    ensures var ps := ExercisesPoints(workoutId, d, exs, nameOf, musclesOf);
      |ps| == SetTotal(exs) && forall k :: 0 <= k < |ps| ==> IsSetPointOf(ps[k], workoutId, d)
  {
    ExercisesPointsCount(workoutId, d, exs, nameOf, musclesOf);
    if exs != [] {
      var init := exs[..|exs| - 1];
      ExercisesPointsShape(workoutId, d, init, nameOf, musclesOf);
      ExercisePointsShape(workoutId, d, exs[|exs| - 1], nameOf, musclesOf);
      var a, b := ExercisesPoints(workoutId, d, init, nameOf, musclesOf), ExercisePoints(workoutId, d, exs[|exs| - 1], nameOf, musclesOf);
      assert ExercisesPoints(workoutId, d, exs, nameOf, musclesOf) == a + b;
      forall k | 0 <= k < |a + b| ensures IsSetPointOf((a + b)[k], workoutId, d) {
        if k < |a| {
          ConcatLeft(a, b, k);
        } else {
          ConcatRight(a, b, k - |a|);
        }
      }
    }
  }

  /**
   * A workout with details gives exactly one summary point, first, at its start time,
   * followed by one set point per set of its exercises, at its end time.
   */
  lemma WorkoutPointsShape(workoutId: string, d: WorkoutDetails, nameOf: Namer, musclesOf: MusclesLookup)
    ensures var ps := WorkoutPoints(workoutId, d, nameOf, musclesOf);
      |ps| == 1 + SetTotal(Exercises(d)) &&
      ps[0] == SummaryPoint(workoutId, d.name, d.duration, d.startTime) &&
      ps[0].Measurement() == SummaryMeasurement &&
      forall k :: 1 <= k < |ps| ==> IsSetPointOf(ps[k], workoutId, d) && ps[k].Measurement() == WorkoutMeasurement
  {
    var sets := ExercisesPoints(workoutId, d, Exercises(d), nameOf, musclesOf);
    ExercisesPointsShape(workoutId, d, Exercises(d), nameOf, musclesOf);
    var summary := [SummaryPoint(workoutId, d.name, d.duration, d.startTime)];
    forall k | 1 <= k < |summary + sets| ensures IsSetPointOf((summary + sets)[k], workoutId, d) {
      ConcatRight(summary, sets, k - 1);
    }
  }

  /** The point for set `i` of one exercise. */
  lemma ExercisePointAt(workoutId: string, d: WorkoutDetails, e: Exercise, nameOf: Namer, musclesOf: MusclesLookup, i: nat)
    requires i < SetCount(e)
    ensures var ps := ExercisePoints(workoutId, d, e, nameOf, musclesOf);
      i < |ps| &&
      ps[i] == SetRecord(workoutId, d, nameOf(e.id), MusclesTag(MuscleLabels(musclesOf(e.id))), i, e.sets.value[i])
  {
  }

  /** Set `i` of exercise `e` is point number SetTotal(exs[..e]) + i: exercise order, then set order. */
  lemma ExercisesPointAt(workoutId: string, d: WorkoutDetails, exs: seq<Exercise>,
                         nameOf: Namer, musclesOf: MusclesLookup, e: nat, i: nat)
    requires e < |exs| && i < SetCount(exs[e])
    ensures var ps := ExercisesPoints(workoutId, d, exs, nameOf, musclesOf);
      SetTotal(exs[..e]) + i < |ps| &&
      ps[SetTotal(exs[..e]) + i] == ExercisePoints(workoutId, d, exs[e], nameOf, musclesOf)[i]
  {
    var pre, x, post := exs[..e], exs[e], exs[e + 1..];
    assert exs == pre + ([x] + post);
    ExercisesPointsAppend(workoutId, d, pre, [x] + post, nameOf, musclesOf);
    ExercisesPointsAppend(workoutId, d, [x], post, nameOf, musclesOf);
    ExercisesPointsSingle(workoutId, d, x, nameOf, musclesOf);
    ExercisesPointsCount(workoutId, d, pre, nameOf, musclesOf);
    var a, b, c := ExercisesPoints(workoutId, d, pre, nameOf, musclesOf), ExercisePoints(workoutId, d, x, nameOf, musclesOf),
                   ExercisesPoints(workoutId, d, post, nameOf, musclesOf);
    ExercisePointsCount(workoutId, d, x, nameOf, musclesOf);
    ConcatRight(a, b + c, i);
    ConcatLeft(b, c, i);
  }

  /** The set points of one exercise alone. */
  lemma ExercisesPointsSingle(workoutId: string, d: WorkoutDetails, x: Exercise, nameOf: Namer, musclesOf: MusclesLookup)
    ensures ExercisesPoints(workoutId, d, [x], nameOf, musclesOf) == ExercisePoints(workoutId, d, x, nameOf, musclesOf)
  {
    assert [x][..0] == [];
  }

  /** The set points of two lists of exercises, one after the other. */
  lemma {:induction false} ExercisesPointsAppend(workoutId: string, d: WorkoutDetails, xs: seq<Exercise>, ys: seq<Exercise>,
                                                 nameOf: Namer, musclesOf: MusclesLookup)
    ensures ExercisesPoints(workoutId, d, xs + ys, nameOf, musclesOf)
         == ExercisesPoints(workoutId, d, xs, nameOf, musclesOf) + ExercisesPoints(workoutId, d, ys, nameOf, musclesOf)
  {
    if ys == [] {
      assert xs + ys == xs;
    } else {
      var init, last := ys[..|ys| - 1], ys[|ys| - 1];
      assert (xs + ys)[..|xs + ys| - 1] == xs + init;
      assert (xs + ys)[|xs + ys| - 1] == last;
      ExercisesPointsAppend(workoutId, d, xs, init, nameOf, musclesOf);
      Associative(ExercisesPoints(workoutId, d, xs, nameOf, musclesOf), ExercisesPoints(workoutId, d, init, nameOf, musclesOf),
                  ExercisePoints(workoutId, d, last, nameOf, musclesOf));
    }
  }

  lemma ExercisePointsCount(workoutId: string, d: WorkoutDetails, e: Exercise, nameOf: Namer, musclesOf: MusclesLookup)
    ensures |ExercisePoints(workoutId, d, e, nameOf, musclesOf)| == SetCount(e)
  {
  }

  lemma ConcatLeft<T>(a: seq<T>, b: seq<T>, k: nat)
    requires k < |a|
    ensures (a + b)[k] == a[k]
  {
  }

  lemma ConcatRight<T>(a: seq<T>, b: seq<T>, i: nat)
    requires i < |b|
    ensures |a| + i < |a + b| && (a + b)[|a| + i] == b[i]
  {
  }

  /**
   * The fields and tags of the point written for set `i` (0-based) of exercise `e`: set number
   * i + 1, reps and weight defaulting to 0, volume reps * weight, the exercise slug, the muscles
   * tag only for a non-empty label list, the workout's duration and its end time.
   */
  lemma SetPointFields(workoutId: string, d: WorkoutDetails, nameOf: Namer, musclesOf: MusclesLookup, e: nat, i: nat)
    requires e < |Exercises(d)| && i < SetCount(Exercises(d)[e])
    ensures var exs := Exercises(d);
      var ps := WorkoutPoints(workoutId, d, nameOf, musclesOf);
      var k := 1 + SetTotal(exs[..e]) + i;
      var stat := exs[e].sets.value[i].statistic;
      var labels := MuscleLabels(musclesOf(exs[e].id));
      k < |ps| && ps[k].SetPoint? &&
      ps[k].workoutId == workoutId && ps[k].workoutName == d.name &&
      ps[k].exerciseName == nameOf(exs[e].id) &&
      ps[k].setNumber == (i + 1) as real &&
      ps[k].reps == (if stat.reps.Number? then stat.reps.value else 0.0) &&
      ps[k].weight == (if stat.weight.Number? then stat.weight.value else 0.0) &&
      ps[k].volume == ps[k].reps * ps[k].weight &&
      (ps[k].muscles.Some? <==> |labels| > 0) &&
      (ps[k].muscles.Some? ==> ps[k].muscles.value == Join(labels)) &&
      ps[k].workoutDuration == d.duration && ps[k].time == d.endTime
  {
    var exs := Exercises(d);
    var labels := MuscleLabels(musclesOf(exs[e].id));
    var p := SetRecord(workoutId, d, nameOf(exs[e].id), MusclesTag(labels), i, exs[e].sets.value[i]);
    WorkoutPointAt(workoutId, d, nameOf, musclesOf, e, i);
    SetRecordFields(workoutId, d, nameOf(exs[e].id), labels, i, exs[e].sets.value[i]);
    assert WorkoutPoints(workoutId, d, nameOf, musclesOf)[1 + SetTotal(exs[..e]) + i] == p;
  }

  /** Set `i` of exercise `e` is point number 1 + SetTotal(exs[..e]) + i of its workout, after the summary. */
  lemma WorkoutPointAt(workoutId: string, d: WorkoutDetails, nameOf: Namer, musclesOf: MusclesLookup, e: nat, i: nat)
    requires e < |Exercises(d)| && i < SetCount(Exercises(d)[e])
    ensures var exs := Exercises(d);
      var ps := WorkoutPoints(workoutId, d, nameOf, musclesOf);
      var k := 1 + SetTotal(exs[..e]) + i;
      k < |ps| &&
      ps[k] == SetRecord(workoutId, d, nameOf(exs[e].id), MusclesTag(MuscleLabels(musclesOf(exs[e].id))), i, exs[e].sets.value[i])
  {
    var exs := Exercises(d);
    var sets := ExercisesPoints(workoutId, d, exs, nameOf, musclesOf);
    ExercisePointAt(workoutId, d, exs[e], nameOf, musclesOf, i);
    ExercisesPointAt(workoutId, d, exs, nameOf, musclesOf, e, i);
    var k := SetTotal(exs[..e]) + i;
    var ps := [SummaryPoint(workoutId, d.name, d.duration, d.startTime)] + sets;
    assert WorkoutPoints(workoutId, d, nameOf, musclesOf) == ps;
    assert ps[1 + k] == sets[k];
  }

  /** The fields and tags of the point for the set at 0-based index `i`. */
  lemma SetRecordFields(workoutId: string, d: WorkoutDetails, exerciseName: string, labels: seq<string>, i: nat, s: WorkoutSet)
    ensures var p := SetRecord(workoutId, d, exerciseName, MusclesTag(labels), i, s);
      p.SetPoint? && p.workoutId == workoutId && p.workoutName == d.name && p.exerciseName == exerciseName &&
      p.setNumber == (i + 1) as real &&
      p.reps == (if s.statistic.reps.Number? then s.statistic.reps.value else 0.0) &&
      p.weight == (if s.statistic.weight.Number? then s.statistic.weight.value else 0.0) &&
      p.volume == p.reps * p.weight &&
      (p.muscles.Some? <==> |labels| > 0) &&
      (p.muscles.Some? ==> p.muscles.value == Join(labels)) &&
      p.workoutDuration == d.duration && p.time == d.endTime
  {
  }

  /**
   * A workout with one exercise of two sets, 10 x 100 and 8 x 110: one summary point, then two
   * set points numbered 1 and 2 with volumes 1000 and 880.
   */
  lemma TwoSetWorkout(nameOf: Namer, musclesOf: MusclesLookup)
    ensures var sets := [WorkoutSet(Statistic(Number(10.0), Number(100.0))), WorkoutSet(Statistic(Number(8.0), Number(110.0)))];
      var d := WorkoutDetails("Legs", 3600.0, "start", "end", Some(Information(Some([Exercise("squat", Some(sets))]))));
      var ps := WorkoutPoints("w1", d, nameOf, musclesOf);
      |ps| == 3 && ps[0].SummaryPoint? && ps[0].time == "start" &&
      ps[1].SetPoint? && ps[1].setNumber == 1.0 && ps[1].volume == 1000.0 && ps[1].time == "end" &&
      ps[2].SetPoint? && ps[2].setNumber == 2.0 && ps[2].volume == 880.0 && ps[2].time == "end"
  {
    var sets := [WorkoutSet(Statistic(Number(10.0), Number(100.0))), WorkoutSet(Statistic(Number(8.0), Number(110.0)))];
    var e := Exercise("squat", Some(sets));
    var d := WorkoutDetails("Legs", 3600.0, "start", "end", Some(Information(Some([e]))));
    assert [e][..0] == [];
    assert ExercisesPoints("w1", d, [e], nameOf, musclesOf) == ExercisePoints("w1", d, e, nameOf, musclesOf);
  }

  /** The tag set of a point, by tag key. */
  function Tags(p: Point): map<string, string> {
    match p
    case SummaryPoint(id, name, _, _) => map["workout_id" := id, "workout_name" := name]
    case SetPoint(id, name, exerciseName, muscles, _, _, _, _, _, _) =>
      var tags := map["workout_id" := id, "workout_name" := name, "exercise_name" := exerciseName];
      if muscles.Some? then tags["muscles" := muscles.value] else tags
  }

  /**
   * The points of two sets of one exercise carry the same measurement, the same tag set and
   * the same timestamp: they differ only in their fields.
   */
  lemma SetsShareSeries(workoutId: string, d: WorkoutDetails, e: Exercise, nameOf: Namer, musclesOf: MusclesLookup,
                        i: nat, j: nat)
    requires i < SetCount(e) && j < SetCount(e)
    ensures var ps := ExercisePoints(workoutId, d, e, nameOf, musclesOf);
      i < |ps| && j < |ps| &&
      ps[i].Measurement() == ps[j].Measurement() && Tags(ps[i]) == Tags(ps[j]) && ps[i].time == ps[j].time
  {
    ExercisePointAt(workoutId, d, e, nameOf, musclesOf, i);
    ExercisePointAt(workoutId, d, e, nameOf, musclesOf, j);
  }

  /** One more work-list id appends the points written for it. */
  lemma RunPointsSnoc(ids: seq<string>, x: string, detailsOf: DetailsLookup, nameOf: Namer, musclesOf: MusclesLookup)
    ensures RunPoints(ids + [x], detailsOf, nameOf, musclesOf)
         == RunPoints(ids, detailsOf, nameOf, musclesOf) + PointsFor(x, detailsOf, nameOf, musclesOf)
  {
    assert (ids + [x])[..|ids|] == ids;
  }

  /** Writing two work lists one after the other writes the points of both, in order. */
  lemma {:induction false} RunPointsAppend(a: seq<string>, b: seq<string>, detailsOf: DetailsLookup, nameOf: Namer, musclesOf: MusclesLookup)
    ensures RunPoints(a + b, detailsOf, nameOf, musclesOf) == RunPoints(a, detailsOf, nameOf, musclesOf) + RunPoints(b, detailsOf, nameOf, musclesOf)
  {
    if b == [] {
      assert a + b == a;
    } else {
      var init, last := b[..|b| - 1], b[|b| - 1];
      assert b == init + [last];
      assert a + b == (a + init) + [last];
      RunPointsAppend(a, init, detailsOf, nameOf, musclesOf);
      RunPointsSnoc(a + init, last, detailsOf, nameOf, musclesOf);
      RunPointsSnoc(init, last, detailsOf, nameOf, musclesOf);
      Associative(RunPoints(a, detailsOf, nameOf, musclesOf), RunPoints(init, detailsOf, nameOf, musclesOf),
                  PointsFor(last, detailsOf, nameOf, musclesOf));
    }
  }

  lemma Associative<T>(a: seq<T>, b: seq<T>, c: seq<T>)
    ensures (a + b) + c == a + (b + c)
  {
  }

  /** A workout whose details cannot be fetched writes nothing, and the run goes on with the next id. */
  lemma SkippedWorkoutWritesNothing(before: seq<string>, id: string, after: seq<string>,
                                    detailsOf: DetailsLookup, nameOf: Namer, musclesOf: MusclesLookup)
    requires detailsOf(id).None?
    ensures RunPoints(before + [id] + after, detailsOf, nameOf, musclesOf)
         == RunPoints(before, detailsOf, nameOf, musclesOf) + RunPoints(after, detailsOf, nameOf, musclesOf)
  {
    RunPointsAppend(before + [id], after, detailsOf, nameOf, musclesOf);
    assert (before + [id])[..|before|] == before;
    var rb := RunPoints(before, detailsOf, nameOf, musclesOf);
    calc {
      RunPoints(before + [id], detailsOf, nameOf, musclesOf);
      rb + PointsFor(id, detailsOf, nameOf, musclesOf);
      rb + [];
      rb;
    }
  }

  /** Every set point directly follows a point of the same workout. */
  predicate SetsFollowSummary(log: seq<Point>) {
    (forall j :: 0 <= j < |log| && log[j].SetPoint? ==> 0 < j && log[j - 1].workoutId == log[j].workoutId)
  }

  /** Appending a block that starts with a summary keeps the property. */
  lemma SetsFollowSummaryAppend(a: seq<Point>, b: seq<Point>)
    requires SetsFollowSummary(a) && SetsFollowSummary(b)
    requires |b| > 0 ==> b[0].SummaryPoint?
    ensures SetsFollowSummary(a + b)
  {
    var ab := a + b;
    forall j | 0 <= j < |ab| && ab[j].SetPoint?
      ensures 0 < j && ab[j - 1].workoutId == ab[j].workoutId
    {
      if j >= |a| {
        assert ab[j] == b[j - |a|];
        if j > |a| { assert ab[j - 1] == b[j - 1 - |a|]; }
      }
    }
  }

  /** The points of a run: every set point follows its workout's summary or a set point of the same workout. */
  lemma {:induction false} RunPointsFollowSummary(ids: seq<string>, detailsOf: DetailsLookup, nameOf: Namer, musclesOf: MusclesLookup)
    ensures SetsFollowSummary(RunPoints(ids, detailsOf, nameOf, musclesOf))
  {
    if ids != [] {
      var id := ids[|ids| - 1];
      RunPointsFollowSummary(ids[..|ids| - 1], detailsOf, nameOf, musclesOf);
      if detailsOf(id).Some? {
        WorkoutPointsShape(id, detailsOf(id).value, nameOf, musclesOf);
      }
      SetsFollowSummaryAppend(RunPoints(ids[..|ids| - 1], detailsOf, nameOf, musclesOf), PointsFor(id, detailsOf, nameOf, musclesOf));
    }
  }

  /**
   * In such a log the nearest summary before a set point belongs to the same workout:
   * `i` is its index, and everything between it and the set point is a set point.
   */
  lemma {:induction false} SummaryBeforeSet(log: seq<Point>, j: nat) returns (i: nat)
    requires SetsFollowSummary(log) && j < |log| && log[j].SetPoint?
    ensures i < j && log[i].SummaryPoint? && log[i].workoutId == log[j].workoutId
    ensures forall k :: i < k <= j ==> log[k].SetPoint?
    decreases j
  {
    if log[j - 1].SummaryPoint? {
      i := j - 1;
    } else {
      i := SummaryBeforeSet(log, j - 1);
    }
  }

  /** How many summary points of workout `x` a log holds. */
  function SummaryCount(log: seq<Point>, x: string): nat {
    if log == [] then 0
    else SummaryCount(log[..|log| - 1], x) + (if log[|log| - 1].SummaryPoint? && log[|log| - 1].workoutId == x then 1 else 0)
  }

  lemma {:induction false} SummaryCountAppend(a: seq<Point>, b: seq<Point>, x: string)
    ensures SummaryCount(a + b, x) == SummaryCount(a, x) + SummaryCount(b, x)
  {
    if b == [] {
      assert a + b == a;
    } else {
      SummaryCountAppend(a, b[..|b| - 1], x);
      assert (a + b)[..|a + b| - 1] == a + b[..|b| - 1];
    }
  }

  lemma {:induction false} NoSummaries(log: seq<Point>, x: string)
    requires forall k :: 0 <= k < |log| ==> log[k].SetPoint?
    ensures SummaryCount(log, x) == 0
  {
    if log != [] {
      NoSummaries(log[..|log| - 1], x);
    }
  }

  /** A run writes one summary of `x` per occurrence of `x` in the work list, none if its details are missing. */
  lemma {:induction false} SummaryCountOfRun(ids: seq<string>, detailsOf: DetailsLookup, nameOf: Namer, musclesOf: MusclesLookup, x: string)
    ensures SummaryCount(RunPoints(ids, detailsOf, nameOf, musclesOf), x) ==
            if detailsOf(x).Some? then multiset(ids)[x] else 0
  {
    if ids != [] {
      var init, id := ids[..|ids| - 1], ids[|ids| - 1];
      assert ids == init + [id];
      SummaryCountOfRun(init, detailsOf, nameOf, musclesOf, x);
      SummaryCountAppend(RunPoints(init, detailsOf, nameOf, musclesOf), PointsFor(id, detailsOf, nameOf, musclesOf), x);
      SummaryCountOfWorkout(id, detailsOf, nameOf, musclesOf, x);
    }
  }

  /** The points written for one work-list entry hold one summary, of that workout, if its details were fetched. */
  lemma SummaryCountOfWorkout(id: string, detailsOf: DetailsLookup, nameOf: Namer, musclesOf: MusclesLookup, x: string)
    ensures SummaryCount(PointsFor(id, detailsOf, nameOf, musclesOf), x) == if id == x && detailsOf(x).Some? then 1 else 0
  {
    if detailsOf(id).Some? {
      var d := detailsOf(id).value;
      ExercisesPointsShape(id, d, Exercises(d), nameOf, musclesOf);
      var sets := ExercisesPoints(id, d, Exercises(d), nameOf, musclesOf);
      NoSummaries(sets, x);
      SummaryCountAppend([SummaryPoint(id, d.name, d.duration, d.startTime)], sets, x);
    }
  }

  /** Every point of `log` belongs to a workout of `ids` whose details were fetched. */
  predicate FromWorkList(log: seq<Point>, ids: seq<string>, detailsOf: DetailsLookup) {
    forall k :: 0 <= k < |log| ==> log[k].workoutId in ids && detailsOf(log[k].workoutId).Some?
  }

  lemma FromWorkListAppend(a: seq<Point>, b: seq<Point>, ia: seq<string>, ib: seq<string>, detailsOf: DetailsLookup)
    requires FromWorkList(a, ia, detailsOf) && FromWorkList(b, ib, detailsOf)
    ensures FromWorkList(a + b, ia + ib, detailsOf)
  {
    forall k | 0 <= k < |a + b|
      ensures (a + b)[k].workoutId in ia + ib && detailsOf((a + b)[k].workoutId).Some?
    {
      if k < |a| {
        assert (a + b)[k] == a[k];
      } else {
        assert (a + b)[k] == b[k - |a|];
      }
    }
  }

  /** The points written for one id all belong to it, and only when its details were fetched. */
  lemma PointsForFromWorkList(id: string, detailsOf: DetailsLookup, nameOf: Namer, musclesOf: MusclesLookup)
    ensures FromWorkList(PointsFor(id, detailsOf, nameOf, musclesOf), [id], detailsOf)
  {
    if detailsOf(id).Some? {
      WorkoutPointsShape(id, detailsOf(id).value, nameOf, musclesOf);
    }
  }

  /** Every point of a run belongs to a work-list workout whose details were fetched. */
  lemma {:induction false} PointsComeFromWorkList(ids: seq<string>, detailsOf: DetailsLookup, nameOf: Namer, musclesOf: MusclesLookup)
    ensures FromWorkList(RunPoints(ids, detailsOf, nameOf, musclesOf), ids, detailsOf)
  {
    if ids != [] {
      var init, id := ids[..|ids| - 1], ids[|ids| - 1];
      assert ids == init + [id];
      PointsComeFromWorkList(init, detailsOf, nameOf, musclesOf);
      PointsForFromWorkList(id, detailsOf, nameOf, musclesOf);
      RunPointsSnoc(init, id, detailsOf, nameOf, musclesOf);
      FromWorkListAppend(RunPoints(init, detailsOf, nameOf, musclesOf), PointsFor(id, detailsOf, nameOf, musclesOf),
                         init, [id], detailsOf);
    }
  }

  lemma {:induction false} DistinctCount(ids: seq<string>, x: string)
    requires forall i, j :: 0 <= i < j < |ids| ==> ids[i] != ids[j]
    requires x in ids
    ensures multiset(ids)[x] == 1
  {
    var init, id := ids[..|ids| - 1], ids[|ids| - 1];
    assert ids == init + [id];
    if x == id {
      assert x !in init;
    } else {
      DistinctCount(init, x);
    }
  }

  /** With distinct work-list ids, every set point's workout has exactly one summary point in the run. */
  lemma UniqueSummaryPerSet(ids: seq<string>, detailsOf: DetailsLookup, nameOf: Namer, musclesOf: MusclesLookup, j: nat)
    requires forall a, b :: 0 <= a < b < |ids| ==> ids[a] != ids[b]
    requires var log := RunPoints(ids, detailsOf, nameOf, musclesOf); j < |log| && log[j].SetPoint?
    ensures var log := RunPoints(ids, detailsOf, nameOf, musclesOf); SummaryCount(log, log[j].workoutId) == 1
  {
    var log := RunPoints(ids, detailsOf, nameOf, musclesOf);
    var x := log[j].workoutId;
    PointsComeFromWorkList(ids, detailsOf, nameOf, musclesOf);
    SummaryCountOfRun(ids, detailsOf, nameOf, musclesOf, x);
    DistinctCount(ids, x);
  }
}
