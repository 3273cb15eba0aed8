/*
 * The workout records the dashboard reads (a `workouts` row with its
 * `exercises` rows). A workout's date is an ISO calendar date; it is kept as
 * a day number, so equal date strings are equal numbers and the string order
 * of ISO dates is the numeric order.
 */
module Workouts {
  import opened Js

  /** One `exercises` row. Every numeric column may be null. */
  datatype ExerciseLog = ExerciseLog(
    name: string,
    sets: Option<int>,
    reps: Option<int>,
    weight: Option<real>,
    unit: Option<string>)

  /** One `workouts` row together with its exercises. */
  datatype Workout = Workout(
    id: int,
    date: int,
    difficulty: Option<int>,
    userNotes: Option<string>,
    rawTranscript: Option<string>,
    exercises: seq<ExerciseLog>)

  /** Milliseconds in a day: date `d` is the instant `d * MsPerDay` (UTC midnight). */
  const MsPerDay: int := 86400000

  /** `ex.weight && ex.weight > 0`: a set done with a positive load. */
  predicate Weighted(ex: ExerciseLog)
  {
    ex.weight.Some? && ex.weight.value > 0.0
  }
}
