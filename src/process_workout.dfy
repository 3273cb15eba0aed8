/*
 * The pure rules inside the workout upload handler
 * (src/app/api/process-workout/route.ts), after the transcript and the
 * structured data have been produced: the stale-year date correction (made
 * in place on the parsed object), the fallback date, the merge into an
 * existing workout of the same date or the values of a new one, and the
 * exercise rows to insert.
 *
 * The transcript, the parsed data, today's date, the existing workout and
 * the id the database gives a new workout are inputs; the database calls
 * themselves are not modelled.
 */
module ProcessWorkout {
  import opened Js
  import opened Text

  /** One exercise of the parsed data. */
  datatype ParsedExercise = ParsedExercise(
    name: string,
    sets: Option<int>,
    reps: Option<int>,
    weight: Option<real>,
    unit: Option<string>,
    durationSeconds: Option<int>,
    progression: Option<string>,
    muscleGroup: Option<string>)

  /** The structured data parsed from the model's reply; the handler corrects its date in place. */
  class ParsedWorkout {
    var date: Option<string>
    var notes: Option<string>
    var difficulty: Option<int>
    var exercises: Option<seq<ParsedExercise>>

    constructor(date: Option<string>, notes: Option<string>, difficulty: Option<int>, exercises: Option<seq<ParsedExercise>>)
      ensures this.date == date && this.notes == notes
      ensures this.difficulty == difficulty && this.exercises == exercises
    {
      this.date := date;
      this.notes := notes;
      this.difficulty := difficulty;
      this.exercises := exercises;
    }

    /** The date correction: only `date` changes, to the corrected date. */
    method CorrectDate(text: string, today: string)
      modifies this
      ensures date == CorrectedDate(old(date), text, today)
      ensures notes == old(notes) && difficulty == old(difficulty) && exercises == old(exercises)
    {
      if !Truthy(date) || StartsWith(date.value, "2024") || StartsWith(date.value, "2025") {
        if !Contains(text, "2024") && !Contains(text, "2025") {
          date := Some(today);
        }
      }
    }
  }

  /** A date the model may have invented: missing, empty, or in 2024 or 2025. */
  predicate Suspect(date: Option<string>)
  {
    !Truthy(date) || StartsWith(date.value, "2024") || StartsWith(date.value, "2025")
  }

  /** The transcript names one of those years itself. */
  predicate MentionsYear(text: string)
  {
    Contains(text, "2024") || Contains(text, "2025")
  }

  /** The date after the correction. */
  function CorrectedDate(date: Option<string>, text: string, today: string): Option<string>
  {
    if Suspect(date) && !MentionsYear(text) then Some(today) else date
  }

  /**
   * The correction replaces the date by today exactly when the date is
   * suspect and the transcript names neither year; a transcript naming a
   * year keeps even a missing date, and a plausible date is never touched.
   */
  lemma CorrectionCases(date: Option<string>, text: string, today: string)
    ensures Suspect(date) && !MentionsYear(text) ==> CorrectedDate(date, text, today) == Some(today)
    ensures MentionsYear(text) ==> CorrectedDate(date, text, today) == date
    ensures !Suspect(date) ==> CorrectedDate(date, text, today) == date
    ensures CorrectedDate(date, text, today) != date ==> CorrectedDate(date, text, today) == Some(today)
  {
  }

  /**
   * Correcting a second time changes nothing: a replaced date is today, and
   * if today is itself suspect it is replaced by today again.
   */
  lemma CorrectionIdempotent(date: Option<string>, text: string, today: string)
    ensures CorrectedDate(CorrectedDate(date, text, today), text, today) == CorrectedDate(date, text, today)
  {
  }

  /** `parsedData.date || new Date().toISOString().split('T')[0]`, with that second reading of the clock as `now`. */
  function WorkoutDate(date: Option<string>, now: string): string
  {
    OrString(date, now)
  }

  /** The workout date is never empty, and it is the corrected date whenever that is non-empty. */
  lemma WorkoutDateNonEmpty(date: Option<string>, now: string)
    requires now != ""
    ensures WorkoutDate(date, now) != ""
    ensures Truthy(date) ==> WorkoutDate(date, now) == date.value
  {
  }

  /** The row of the latest workout already stored for the date. */
  datatype ExistingWorkout = ExistingWorkout(
    id: int,
    rawTranscript: Option<string>,
    userNotes: Option<string>,
    difficulty: Option<int>)

  /** The database write the handler makes for the workout. */
  datatype WorkoutWrite =
    | Update(id: int, rawTranscript: string, userNotes: string, difficulty: int)
    | Insert(rawTranscript: string, date: string, difficulty: int, notes: Option<string>)

  function Max(a: int, b: int): int { if a >= b then a else b }

  /** `parsedData.difficulty || 5`: the difficulty of a new session. */
  function NewDifficulty(parsed: Option<int>): int
  {
    OrInt(parsed, 5)
  }

  /** `Math.max(existing.difficulty || 0, parsedData.difficulty || 5)`. */
  function MergedDifficulty(existing: Option<int>, parsed: Option<int>): int
  {
    Max(OrZero(existing), NewDifficulty(parsed))
  }

  /** The update of an existing workout, or the insert of a new one. */
  function PlanWrite(existing: Option<ExistingWorkout>, text: string, notes: Option<string>,
                     difficulty: Option<int>, workoutDate: string): WorkoutWrite
  {
    match existing
    case Some(e) =>
      Update(e.id,
             JoinTruthy(e.rawTranscript, Some(text), "\n"),
             JoinTruthy(e.userNotes, notes, " | "),
             MergedDifficulty(e.difficulty, difficulty))
    case None =>
      Insert(text, workoutDate, NewDifficulty(difficulty), notes)
  }

  /**
   * The merge keeps what was there: the stored transcript and notes come
   * first and the new ones follow after the separator, empty values
   * dropped; the difficulty never falls below the stored one nor below the
   * new session's, and is one of the two. A new workout takes the
   * transcript as it is and difficulty 5 unless the session gives another.
   */
  lemma WriteFacts(existing: Option<ExistingWorkout>, text: string, notes: Option<string>,
                   difficulty: Option<int>, workoutDate: string)
    ensures var w := PlanWrite(existing, text, notes, difficulty, workoutDate);
      && (existing.Some? <==> w.Update?)
      && (existing.Some? ==>
            && w.id == existing.value.id
            && w.rawTranscript == Join(Compact([existing.value.rawTranscript, Some(text)]), "\n")
            && w.userNotes == Join(Compact([existing.value.userNotes, notes]), " | ")
            && w.difficulty >= OrZero(existing.value.difficulty)
            && w.difficulty >= NewDifficulty(difficulty)
            && (w.difficulty == OrZero(existing.value.difficulty) || w.difficulty == NewDifficulty(difficulty)))
      && (existing.None? ==>
            && w.rawTranscript == text && w.date == workoutDate && w.notes == notes
            && (difficulty.None? || difficulty.value == 0 ==> w.difficulty == 5)
            && (difficulty.Some? && difficulty.value != 0 ==> w.difficulty == difficulty.value))
  {
    if existing.Some? {
      var e := existing.value;
      JoinTruthyStep([e.rawTranscript], Some(text), "\n");
      JoinTruthyStep([e.userNotes], notes, " | ");
      assert [e.rawTranscript] + [Some(text)] == [e.rawTranscript, Some(text)];
      assert [e.userNotes] + [notes] == [e.userNotes, notes];
      JoinOne(e.rawTranscript, "\n");
      JoinOne(e.userNotes, " | ");
    }
  }

  lemma JoinOne(x: Option<string>, sep: string)
    ensures Truthy(Some(Join(Compact([x]), sep))) <==> Truthy(x)
    ensures Truthy(x) ==> Join(Compact([x]), sep) == x.value
  {
    assert [x][..0] == [];
    assert Compact([x]) == if Truthy(x) then [x.value] else [];
    if Truthy(x) {
      assert Join([x.value], sep) == x.value;
    }
  }

  /** One row of the `exercises` insert. */
  datatype ExerciseRow = ExerciseRow(
    workoutId: int,
    name: string,
    sets: Option<int>,
    reps: Option<int>,
    weight: Option<real>,
    unit: string,
    durationSeconds: Option<int>,
    progression: Option<string>,
    muscleGroup: Option<string>)

  function RowOf(ex: ParsedExercise, workoutId: int): ExerciseRow
  {
    ExerciseRow(workoutId, ex.name, ex.sets, ex.reps, ex.weight, OrString(ex.unit, "lbs"),
                ex.durationSeconds, ex.progression, ex.muscleGroup)
  }

  /** The rows inserted: none when the data has no exercises, else one per exercise in order. */
  function ExerciseRows(exercises: Option<seq<ParsedExercise>>, workoutId: int): seq<ExerciseRow>
  {
    match exercises
    case None => []
    case Some(exs) => seq(|exs|, i requires 0 <= i < |exs| => RowOf(exs[i], workoutId))
  }

  /** The exercise the row reads back as: the row without its workout, the unit as stored. */
  function Unrow(r: ExerciseRow): ParsedExercise
  {
    ParsedExercise(r.name, r.sets, r.reps, r.weight, Some(r.unit), r.durationSeconds, r.progression, r.muscleGroup)
  }

  /**
   * Every row carries the workout's id and a non-empty unit ("lbs" when the
   * exercise gives none), and reads back as its exercise with every other
   * field unchanged.
   */
  lemma RowsFacts(exercises: Option<seq<ParsedExercise>>, workoutId: int)
    ensures exercises.None? ==> ExerciseRows(exercises, workoutId) == []
    ensures exercises.Some? ==> |ExerciseRows(exercises, workoutId)| == |exercises.value|
    ensures exercises.Some? ==> forall i :: 0 <= i < |exercises.value| ==>
              var r := ExerciseRows(exercises, workoutId)[i];
              var ex := exercises.value[i];
              && r.workoutId == workoutId
              && r.unit != ""
              && (Truthy(ex.unit) ==> Unrow(r) == ex)
              && (!Truthy(ex.unit) ==> Unrow(r) == ex.(unit := Some("lbs")))
  {
  }

  /**
   * The handler's steps after parsing: correct the date in place, choose the
   * workout date, write the workout, then insert the rows under the id of
   * the workout written (`newId` for an insert).
   */
  method SaveSession(parsed: ParsedWorkout, text: string, today: string, now: string,
                     existing: Option<ExistingWorkout>, newId: int)
    returns (workoutDate: string, write: WorkoutWrite, rows: seq<ExerciseRow>)
    modifies parsed
    ensures parsed.date == CorrectedDate(old(parsed.date), text, today)
    ensures workoutDate == WorkoutDate(parsed.date, now)
    ensures write == PlanWrite(existing, text, parsed.notes, parsed.difficulty, workoutDate)
    ensures rows == ExerciseRows(parsed.exercises, if existing.Some? then existing.value.id else newId)
  {
    parsed.CorrectDate(text, today);
    workoutDate := WorkoutDate(parsed.date, now);
    write := PlanWrite(existing, text, parsed.notes, parsed.difficulty, workoutDate);
    var workoutId := if existing.Some? then existing.value.id else newId;
    rows := ExerciseRows(parsed.exercises, workoutId);
  }
}
