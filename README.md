# ryot-export: the import logic of `fetch_workouts_from_ryot.py`, in Dafny

`fetch_workouts_from_ryot.py` copies workouts from a Ryot server into an InfluxDB bucket.
It reads the list of workout ids. In `--reset` mode it first deletes the `workouts` and
`workout_summary` measurements and imports every workout. Otherwise it imports only the workouts
whose id has no summary point in the bucket yet. For each imported workout whose details it can
fetch, it writes one `workout_summary` point. It then writes one `workouts` point per set of each
exercise. Each set point is tagged with the exercise's slug (from `parse_exercise_id` and
`slugify`) and, when there are any, with the exercise's muscle groups.

This project models that logic and proves what it promises:

- `Slug` (slug.dfy): `slugify` and `parse_exercise_id` as functions over `string`. Python's `\s`
  and `str.strip` whitespace is an explicit code-point predicate, `IsWhitespace`.
- `Reconcile` (reconcile.dfy): the incremental work list, which is the list comprehension that
  filters the source ids against the stored ids. Also the empty-set fallback of
  `get_existing_workout_ids`.
- `Sink` (sink.dfy): the write loop of `main`, as methods with loops that return the points in
  write order. Each method is proved equal to a specification function, and lemmas give
  counts, order, positions and field values. The two GraphQL lookups are function parameters.
  The specification functions also take the exercise-naming function as a parameter; every
  method instantiates it with `Slug.ParseExerciseId`.
- `Store` (store.dfy): the bucket as a class. It holds the points written, the delete of both
  measurements and the query for stored workout ids.
- `Sync` (sync.dfy): `main` from the fetched source ids on, meaning the early return, the
  reset/incremental branch and the write loop, against a `Store.Bucket`. Lemmas cover what a
  second incremental run does.

The slug may keep whitespace other than the space character, such as a tab or a line feed.
The filter keeps every whitespace character, and only `" "` is replaced by `_`. The model follows
the code here, so `Slug.IsSlug` allows such characters. It does not allow a space, an uppercase
letter or whitespace at either end.

## Model

| member | source | states |
|---|---|---|
| Slug.Filter | fetch_workouts_from_ryot.py:124 | the regex substitution keeps only letters, digits, `_`, whitespace and `-`, and every such character of the input occurs in the result; text made only of those is unchanged |
| Slug.FilterAppend | fetch_workouts_from_ryot.py:124 | filtering two pieces of text one after the other gives the filtered first piece followed by the filtered second: with `Slug.FilterChar`, the result is the input's kept characters in order, each as often as in the input |
| Slug.FilterChar | fetch_workouts_from_ryot.py:124 | one character is kept exactly when it is a letter, digit, `_`, whitespace or `-` |
| Slug.TrimStart | fetch_workouts_from_ryot.py:124 | removes only leading whitespace and leaves none |
| Slug.TrimEnd | fetch_workouts_from_ryot.py:124 | removes only trailing whitespace and leaves none |
| Slug.Strip | fetch_workouts_from_ryot.py:124 | `strip()` returns a contiguous piece of its input, cut only at a leading and a trailing run of whitespace, and with no whitespace at either end |
| Slug.StripRemovesEnds | fetch_workouts_from_ryot.py:124 | trimming the front, then the back, removes only a leading and a trailing run of whitespace |
| Slug.Lower | fetch_workouts_from_ryot.py:124 | `lower()` keeps the length, leaves no uppercase ASCII letter, maps each capital to its lowercase letter and leaves every other character as it is |
| Slug.ReplaceSpaces | fetch_workouts_from_ryot.py:124 | `replace(" ", "_")` keeps the length, leaves no space, puts `_` where each space was and leaves every other character as it is |
| Slug.FinishIsSlug | fetch_workouts_from_ryot.py:124 | lowercasing and replacing spaces turn filtered, stripped text into a slug |
| Slug.Slugify | fetch_workouts_from_ryot.py:122-124 | the result is a slug: only lowercase ASCII letters, digits, `_`, `-` and whitespace other than the space; no uppercase letter and no space; no whitespace at either end; never longer than the input |
| Slug.SlugUnchanged | fetch_workouts_from_ryot.py:124 | each of the four stages leaves a slug unchanged |
| Slug.SlugifyFixedPoints | fetch_workouts_from_ryot.py:122-124 | `slugify(t) == t` exactly when `t` is a slug |
| Slug.SlugifyIdempotent | fetch_workouts_from_ryot.py:122-124 | `slugify(slugify(t)) == slugify(t)` |
| Slug.FirstOccurrence | fetch_workouts_from_ryot.py:119 | the leftmost occurrence of `_reps_and_weight_usr_` at or after `from`, or none if there is none |
| Slug.ExerciseName | fetch_workouts_from_ryot.py:119 | `split(marker)[0]`: the prefix of the id before the first marker, or the whole id if there is no marker |
| Slug.ParseExerciseId | fetch_workouts_from_ryot.py:117-120 | the exercise name is always a slug |
| Slug.SamePrefixSameName | fetch_workouts_from_ryot.py:119 | two ids that agree up to the end of a marker occurrence have the same name |
| Slug.ParseIgnoresSuffix | fetch_workouts_from_ryot.py:117-120 | ids with the same text before the marker give the same exercise slug, whatever follows |
| Slug.ParseNamedId | fetch_workouts_from_ryot.py:117-120 | `<name>_reps_and_weight_usr_<rest>` gives `slugify(<name>)` when no marker starts inside `<name>` |
| Slug.ParseWithoutMarker | fetch_workouts_from_ryot.py:117-120 | an id without the marker is slugified whole |
| Reconcile.Unseen | fetch_workouts_from_ryot.py:179 | an id is in the work list exactly when it is a source id that is not stored; the list is never longer than the source list |
| Reconcile.UnseenPositions | fetch_workouts_from_ryot.py:179 | the work list is the ordered difference: its entries are the source entries at strictly increasing positions, and those positions are exactly the ones whose id is not stored |
| Reconcile.UnseenCounts | fetch_workouts_from_ryot.py:179 | duplicates are kept: each unstored id occurs as often as in the source list, and a stored id does not occur |
| Reconcile.UnseenOfNothing | fetch_workouts_from_ryot.py:179 | with nothing stored, the work list is the whole source list |
| Reconcile.UnseenDistinct | fetch_workouts_from_ryot.py:179 | distinct source ids give a work list of distinct ids |
| Reconcile.NothingNew | fetch_workouts_from_ryot.py:179-182 | the incremental work list is empty exactly when every source id is stored |
| Reconcile.ResetProcessesAll | fetch_workouts_from_ryot.py:171-174 | in reset mode the work list is the source list unchanged |
| Reconcile.FailedQueryProcessesAll | fetch_workouts_from_ryot.py:143-145 | a failed query of stored ids makes the incremental work list the whole source list |
| Reconcile.ExistingIds | fetch_workouts_from_ryot.py:136-145 | the ids the query returned, or the empty set when the query raised |
| Reconcile.WorkList | fetch_workouts_from_ryot.py:171-179 | `workouts_to_process`: the source list after a reset; otherwise an id is in it exactly when it is a source id not among the existing ids; never longer than the source list |
| Sink.Exercises | fetch_workouts_from_ryot.py:208-209 | the exercises looped over: those of `information.exercises` when both keys are present, none otherwise |
| Sink.MuscleLabels | fetch_workouts_from_ryot.py:212-215 | the muscle labels: those of the lookup's `muscles` when the lookup returned data holding that key, none otherwise |
| Sink.Join | fetch_workouts_from_ryot.py:229 | `",".join(labels)`: empty for no labels, the label itself for one, the first label and a comma first for more; `Sink.SplitJoin` inverts it |
| Sink.MusclesTag | fetch_workouts_from_ryot.py:228-229 | a `muscles` tag exactly when the label list is non-empty, holding the labels joined with `,` |
| Sink.SetRecord | fetch_workouts_from_ryot.py:219-235 | the point of one set: workout and exercise tags, the given muscles tag, set number i + 1, reps and weight read by `Sink.FloatOfStat`, volume reps × weight, the workout's duration, time `endTime` |
| Sink.SplitJoin | fetch_workouts_from_ryot.py:228-229 | splitting the `muscles` tag at commas gives back the labels, when there is at least one and none contains a comma |
| Sink.FloatOfStatCorrects | fetch_workouts_from_ryot.py:220-221 | the intended reading of `reps`/`weight` agrees with the code as written wherever that code returns a value, never fails, and gives 0 for an absent or null value; the code as written fails exactly on null |
| Sink.NullWeightRaises | fetch_workouts_from_ryot.py:221 | a set with reps 10 and a null weight makes the code as written raise, where the intended value is 0 and the volume is 0 |
| Sink.WriteSets | fetch_workouts_from_ryot.py:217-236 | writes exactly `SetPoints`: one point per set, in set order, with set number i + 1 |
| Sink.WriteExercise | fetch_workouts_from_ryot.py:210-236 | writes exactly `ExercisePoints` with the parsed exercise slug and the looked-up muscles; nothing without a `sets` key |
| Sink.WriteNamedExercise | fetch_workouts_from_ryot.py:212-236 | once the slug is known, writes exactly `SetPoints` of the exercise's sets with the labels of the muscles lookup, none when the lookup fails or has no `muscles`; nothing without a `sets` key |
| Sink.WriteExercises | fetch_workouts_from_ryot.py:209-236 | writes exactly `ExercisesPoints`: the set points of each exercise in turn |
| Sink.WriteWorkout | fetch_workouts_from_ryot.py:193-236 | writes exactly `WorkoutPoints`: the summary point, then the set points; no set points without `information` or `exercises` |
| Sink.WriteWorkouts | fetch_workouts_from_ryot.py:187-236 | writes exactly `RunPoints`: each work-list workout in turn, skipping those without details |
| Sink.ExercisesPointsStep | fetch_workouts_from_ryot.py:209-236 | one more exercise appends its set points after those already written |
| Sink.ExercisesPointsAppend | fetch_workouts_from_ryot.py:209-236 | the set points of two exercise lists, one after the other, are those of the first list followed by those of the second |
| Sink.ExercisesPointsCount | fetch_workouts_from_ryot.py:217-218 | one set point per set of the exercises that have a `sets` key |
| Sink.ExercisePointsShape | fetch_workouts_from_ryot.py:217-236 | an exercise writes one point per set, each a set point of this workout with its name, duration and end time |
| Sink.ExercisesPointsShape | fetch_workouts_from_ryot.py:209-236 | the same for a list of exercises |
| Sink.WorkoutPointsShape | fetch_workouts_from_ryot.py:199-236 | a workout with details writes exactly one summary point, first, in `workout_summary`, at `startTime`; then one point per set, all in `workouts`, at `endTime` |
| Sink.ExercisePointAt | fetch_workouts_from_ryot.py:218-236 | set `i` of an exercise gives its point number `i` |
| Sink.ExercisesPointAt | fetch_workouts_from_ryot.py:209-236 | set `i` of exercise `e` is at position `SetTotal(exs[..e]) + i`, so the order is by exercise, then by set |
| Sink.WorkoutPointAt | fetch_workouts_from_ryot.py:199-236 | set `i` of exercise `e` is point number `1 + SetTotal(exs[..e]) + i` of its workout, after the summary and the sets of the earlier exercises, and is the record of that set |
| Sink.SetPointFields | fetch_workouts_from_ryot.py:219-235 | the point of set `i` of exercise `e`: workout id and name tags; `exercise_name` is the naming function of the exercise id; `set_number` i + 1; reps and weight, 0 when absent or (in the corrected reading of the finding below) null; volume reps × weight; a `muscles` tag exactly when the label list is non-empty, equal to the labels joined with `,`; `workout_duration` the workout's duration; time `endTime` |
| Sink.SetRecordFields | fetch_workouts_from_ryot.py:219-235 | the record of one set: set number i + 1, reps and weight 0 when absent or (in the corrected reading of the finding below) null, volume reps × weight, a `muscles` tag exactly for a non-empty label list, the workout's duration and end time |
| Sink.TwoSetWorkout | fetch_workouts_from_ryot.py:217-236 | one exercise with sets 10 × 100 and 8 × 110 gives a summary point and two set points, numbered 1 and 2, with volumes 1000 and 880 |
| Sink.SetsShareSeries | fetch_workouts_from_ryot.py:224-235 | the points of two sets of one exercise have the same measurement, the same tag set and the same timestamp |
| Sink.RunPointsSnoc | fetch_workouts_from_ryot.py:187-236 | one more work-list id appends the points written for it |
| Sink.RunPointsAppend | fetch_workouts_from_ryot.py:187-236 | two work lists written one after the other write the points of both, in order |
| Sink.SkippedWorkoutWritesNothing | fetch_workouts_from_ryot.py:188-191 | a workout whose details lookup fails writes nothing, and the run goes on with the next id |
| Sink.SetsFollowSummaryAppend | fetch_workouts_from_ryot.py:199-236 | appending a block that starts with a summary point keeps every set point right after a point of its own workout |
| Sink.RunPointsFollowSummary | fetch_workouts_from_ryot.py:199-236 | in a run's points, every set point comes right after a point of the same workout |
| Sink.SummaryBeforeSet | fetch_workouts_from_ryot.py:199-236 | the nearest summary point before any set point belongs to its workout, and only set points lie between them |
| Sink.SummaryCountAppend | fetch_workouts_from_ryot.py:199-205 | summary points of a workout add up over consecutive writes |
| Sink.SummaryCountOfRun | fetch_workouts_from_ryot.py:187-205 | a run writes one summary of a workout per occurrence of its id in the work list, and none when its details lookup fails |
| Sink.SummaryCountOfWorkout | fetch_workouts_from_ryot.py:188-205 | the points written for one work-list id hold one summary point, of that id, when its details were fetched, and none otherwise |
| Sink.PointsForFromWorkList | fetch_workouts_from_ryot.py:188-205 | every point written for an id carries that id, and exists only when the id's details were fetched |
| Sink.PointsComeFromWorkList | fetch_workouts_from_ryot.py:187-236 | every point of a run belongs to a work-list workout whose details were fetched |
| Sink.UniqueSummaryPerSet | fetch_workouts_from_ryot.py:187-236 | with distinct work-list ids, each set point's workout has exactly one summary point in the run |
| Store.SummaryIds | fetch_workouts_from_ryot.py:138-142 | the query returns exactly the `workout_id` tags of the bucket's summary points |
| Store.SummaryIdsCount | fetch_workouts_from_ryot.py:138-142 | an id is returned exactly when the bucket holds a summary point for it |
| Store.SummaryIdsAppend | fetch_workouts_from_ryot.py:138-142 | writing points adds the ids of their summary points to those returned |
| Store.SummaryIdsOfRun | fetch_workouts_from_ryot.py:187-205 | the ids a run adds are those of the work list whose details were fetched |
| Store.Bucket.Clear | fetch_workouts_from_ryot.py:126-133 | deleting both measurements leaves the bucket empty |
| Store.Bucket.Write | fetch_workouts_from_ryot.py:205 | writing appends the points, in order, to those already in the bucket |
| Sync.Run | fetch_workouts_from_ryot.py:154-236 | the bucket ends as `Synced` of its old contents and `workouts_to_process` is `Planned`: unchanged after an empty source list or an empty incremental work list; replaced by the points of all source workouts after a reset; otherwise extended with the points of the unstored ones |
| Sync.ResetReplacesAll | fetch_workouts_from_ryot.py:171-175 | a reset run replaces the bucket's points with those of the whole source list |
| Sync.IncrementalAppendsUnseen | fetch_workouts_from_ryot.py:176-183 | an incremental run keeps the stored points and appends those of the unstored source ids, in source order |
| Sync.FailedQueryReimportsAll | fetch_workouts_from_ryot.py:143-145 | when the query of stored ids fails, an incremental run writes every source workout again |
| Sync.NothingNewWritesNothing | fetch_workouts_from_ryot.py:179-182 | the incremental work list is empty exactly when every source id is stored, and then nothing is written |
| Sync.SyncedIds | fetch_workouts_from_ryot.py:171-205 | after a run, the stored ids are the earlier ones (unless reset) plus the planned ids whose details were fetched |
| Sync.RerunRetriesOnlyMissing | fetch_workouts_from_ryot.py:176-191 | a second incremental run with the same answers works exactly on the source ids whose details were missing and that were not stored before (all of those, after a reset) |
| Sync.RerunIsNoOp | fetch_workouts_from_ryot.py:176-182 | once every source workout's details can be fetched, a second incremental run leaves the bucket unchanged |
| Sync.OneSummaryPerWrittenSet | fetch_workouts_from_ryot.py:171-236 | with distinct source ids, every written set point belongs to a planned workout with exactly one summary point among the points written |

## Left out

- The GraphQL fetches (`fetch_graphql_data`, `get_workout_ids`, `get_workout_details`, `get_exercise_details`) are network I/O. The source id list is an input, and the two lookups are total functions that return `None` when a fetch fails or returns no data. Within a run, a lookup is taken to give the same answer for the same id. How many lookups a run makes is not modelled.
- `Sink.ExercisePoints` and the functions built on it take the exercise-naming function as a parameter. This keeps the slug definitions out of the proofs about positions. `Sink.WriteExercise` calls `Slug.ParseExerciseId`, and `Sync` fixes the parameter to it.
- The InfluxDB client is a foreign library: connection, write API and `Point` objects. A write is an append to `Store.Bucket.points`, and the points are datatypes holding their tags and fields.
- Store.Bucket: keeps every point written. InfluxDB keeps one point per measurement, tag set and timestamp, and a later write replaces the fields of an earlier one. `Sink.SetsShareSeries` shows that all set points of one exercise share those three. The real bucket therefore keeps only the last set of each exercise. That storage behaviour belongs to the database, not the script, so it is not modelled.
- Store.Bucket.Clear: empties the bucket. The 1970 to 2100 time range of the delete is not modelled, and neither is the query's `range(start: 0)`: timestamps are opaque strings.
- Sync.Run: the existing-id query either succeeds or fails as a whole, chosen by the `queryFails` parameter. Every other client call is taken to succeed.
- The `DRY_RUN` branch, `argparse`, environment configuration and logging have no logic to verify.
- The top-level `except Exception` and the partial writes an exception leaves behind are not modelled. The one exception the model exhibits is the null statistic under "Findings".
- Sink.SetRecord, Sink.WriteSets, Sink.WriteWorkouts and Sync.Run follow the corrected reading of a statistic (see "Findings"): a null `reps` or `weight` is written as 0. The program as written raises `TypeError` there instead; its handler then ends the whole run, and the points written before stay in the bucket. Only `Sink.FloatOfStatAsWritten` and `Sink.NullWeightRaises` model that behaviour.
- Malformed details are not modelled; the datatypes require these values to be present. A missing required key raises `KeyError`: `details`, `name`, `duration`, `startTime`, `endTime`, an exercise's `id`, a set's `statistic`. A null `information` makes the `in` test raise `TypeError`, and a null `exercises` or `sets` makes its loop raise `TypeError`. A null `statistic` raises `AttributeError`, and a null `details` raises `TypeError`. A `muscles` key holding null gives no tag, the same as an absent key.
- `float(...)` and `reps * weight` are computed on `real`, so there is no IEEE rounding. The coercion of a numeric string `duration` is not modelled.
- Python's full Unicode `str.lower` is not modelled. Only ASCII letters reach it after the filter, so ASCII lowering is exact there.

## Findings

| source | as written | input that shows it | evidently intended | confidence | as-written member | corrected member |
|---|---|---|---|---|---|---|
| fetch_workouts_from_ryot.py:220-221 | `get` supplies the default 0 only for an absent key. A `reps` or `weight` present with a null value reaches `float(None)`, which raises `TypeError`. The top-level handler then ends the whole import after a partial write | a set whose statistic has reps 10 and weight null | a missing value, absent or null, counts as 0 and the volume is 0 | not executed; certain for a null value, which the API returns if it sends the requested field as null | Sink.FloatOfStatAsWritten, Sink.NullWeightRaises | Sink.FloatOfStat, Sink.FloatOfStatCorrects |
