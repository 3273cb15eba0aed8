/*
 * The monthly strength report of the dashboard (`strengthReport` in
 * src/app/dashboard/page.tsx): for the current and the previous calendar
 * month, the heaviest weighted set of every exercise; then one entry per
 * exercise seen in either month, with both maxima, a unit, the percentage
 * change and a description of this month's best set, sorted by name.
 *
 * Month boundaries are instants (milliseconds) supplied by the caller; a
 * workout dated on day `d` is the instant `d * MsPerDay`.
 */
module StrengthReport {
  import opened Js
  import opened Text
  import opened Workouts

  /** `{ weight, sets, reps, unit }` kept per exercise name. */
  datatype MaxRec = MaxRec(weight: real, sets: int, reps: int, unit: string)

  /** The record a weighted set produces: missing sets and reps become 0, a missing unit "lbs". */
  function RecOf(ex: ExerciseLog): MaxRec
    requires Weighted(ex)
  {
    MaxRec(ex.weight.value, OrZero(ex.sets), OrZero(ex.reps), OrString(ex.unit, "lbs"))
  }

  /** The `maxes` record: its keys in insertion order and the records. */
  datatype Maxes = Maxes(names: seq<string>, byName: map<string, MaxRec>)

  const NoMaxes := Maxes([], map[])

  /** `d >= start && d <= end` for the workout's instant. */
  predicate InMonth(w: Workout, startMs: int, endMs: int)
  {
    startMs <= w.date * MsPerDay <= endMs
  }

  /** One set considered: a weighted set replaces the record when there is none or it is strictly heavier. */
  function Consider(m: Maxes, ex: ExerciseLog): Maxes
  {
    if !Weighted(ex) then m
    else if ex.name !in m.byName then Maxes(m.names + [ex.name], m.byName[ex.name := RecOf(ex)])
    else if ex.weight.value > m.byName[ex.name].weight then Maxes(m.names, m.byName[ex.name := RecOf(ex)])
    else m
  }

  /** The sets `exs` considered in order, starting from `m`. */
  function ConsiderAll(m: Maxes, exs: seq<ExerciseLog>): Maxes
  {
    if exs == [] then m else Consider(ConsiderAll(m, exs[..|exs| - 1]), exs[|exs| - 1])
  }

  lemma {:induction false} ConsiderAllAppend(m: Maxes, a: seq<ExerciseLog>, b: seq<ExerciseLog>)
    ensures ConsiderAll(m, a + b) == ConsiderAll(ConsiderAll(m, a), b)
    decreases |b|
  {
    if b == [] {
      assert a + b == a;
    } else {
      assert (a + b)[..|a + b| - 1] == a + b[..|b| - 1];
      ConsiderAllAppend(m, a, b[..|b| - 1]);
    }
  }

  /** Every set of every workout of the month, in loop order. */
  function Candidates(ws: seq<Workout>, startMs: int, endMs: int): seq<ExerciseLog>
  {
    if ws == [] then []
    else
      var w := ws[|ws| - 1];
      Candidates(ws[..|ws| - 1], startMs, endMs) + (if InMonth(w, startMs, endMs) then w.exercises else [])
  }

  /** The inner loop of `maxByExercise`: one workout's sets considered. */
  method ConsiderSets(names: seq<string>, maxes: map<string, MaxRec>, exs: seq<ExerciseLog>)
    returns (names': seq<string>, maxes': map<string, MaxRec>)
    ensures Maxes(names', maxes') == ConsiderAll(Maxes(names, maxes), exs)
  {
    names', maxes' := names, maxes;
    var j := 0;
    while j < |exs|
      invariant 0 <= j <= |exs|
      invariant Maxes(names', maxes') == ConsiderAll(Maxes(names, maxes), exs[..j])
    {
      var ex := exs[j];
      assert exs[..j + 1][..j] == exs[..j];
      if ex.weight.Some? && ex.weight.value > 0.0 {
        if ex.name !in maxes' || ex.weight.value > maxes'[ex.name].weight {
          if ex.name !in maxes' {
            names' := names' + [ex.name];
          }
          maxes' := maxes'[ex.name := MaxRec(ex.weight.value, OrZero(ex.sets), OrZero(ex.reps), OrString(ex.unit, "lbs"))];
        }
      }
      j := j + 1;
    }
    assert exs[..j] == exs;
  }

  /** `maxByExercise(start, end)`, with the insertion order of its keys. */
  method MaxByExercise(workouts: seq<Workout>, startMs: int, endMs: int)
    returns (names: seq<string>, maxes: map<string, MaxRec>)
    ensures Maxes(names, maxes) == ConsiderAll(NoMaxes, Candidates(workouts, startMs, endMs))
  {
    names, maxes := [], map[];
    var i := 0;
    while i < |workouts|
      invariant 0 <= i <= |workouts|
      invariant Maxes(names, maxes) == ConsiderAll(NoMaxes, Candidates(workouts[..i], startMs, endMs))
    {
      var w := workouts[i];
      assert workouts[..i + 1][..i] == workouts[..i];
      if startMs <= w.date * MsPerDay && w.date * MsPerDay <= endMs {
        assert InMonth(w, startMs, endMs);
        assert Candidates(workouts[..i + 1], startMs, endMs) == Candidates(workouts[..i], startMs, endMs) + w.exercises;
        ConsiderAllAppend(NoMaxes, Candidates(workouts[..i], startMs, endMs), w.exercises);
        names, maxes := ConsiderSets(names, maxes, w.exercises);
      } else {
        ghost var done := Candidates(workouts[..i], startMs, endMs);
        assert !InMonth(w, startMs, endMs);
        assert done + [] == done;
        assert Candidates(workouts[..i + 1], startMs, endMs) == done;
      }
      i := i + 1;
    }
    assert workouts[..i] == workouts;
  }

  /** A weighted set of exercise `n` among `cands`. */
  predicate WeightedSetOf(cands: seq<ExerciseLog>, i: int, n: string)
  {
    0 <= i < |cands| && cands[i].name == n && Weighted(cands[i])
  }

  /** The month holds a weighted set of exercise `n`. */
  predicate HasWeightedSet(cands: seq<ExerciseLog>, n: string)
  {
    exists i :: 0 <= i < |cands| && WeightedSetOf(cands, i, n)
  }

  /** Some entry of the report is for exercise `n`. */
  predicate Listed(entries: seq<ReportEntry>, n: string)
  {
    exists i :: 0 <= i < |entries| && entries[i].name == n
  }

  /** The keys are listed once each, and every record carries a non-empty unit. */
  ghost predicate WellKept(m: Maxes)
  {
    && (forall n :: n in m.names <==> n in m.byName)
    && (forall a, b :: 0 <= a < b < |m.names| ==> m.names[a] != m.names[b])
    && (forall n :: n in m.byName ==> m.byName[n].unit != "")
  }

  lemma {:induction false} ConsiderAllWellKept(m: Maxes, exs: seq<ExerciseLog>)
    requires WellKept(m)
    ensures WellKept(ConsiderAll(m, exs))
    decreases |exs|
  {
    if exs != [] {
      ConsiderAllWellKept(m, exs[..|exs| - 1]);
    }
  }

  /**
   * What `maxByExercise` keeps for exercise `n`: a record exactly when the
   * month holds a weighted set of `n`; that record is the one of the first
   * set of the greatest weight (a later set of equal weight does not replace
   * it), so its weight is at least that of every weighted set of `n`.
   */
  lemma {:induction false} MaxOfExercise(cands: seq<ExerciseLog>, n: string)
    ensures n in ConsiderAll(NoMaxes, cands).byName <==> HasWeightedSet(cands, n)
    ensures n in ConsiderAll(NoMaxes, cands).byName ==>
              var r := ConsiderAll(NoMaxes, cands).byName[n];
              && (forall i :: WeightedSetOf(cands, i, n) ==> cands[i].weight.value <= r.weight)
              && exists i :: WeightedSetOf(cands, i, n) && r == RecOf(cands[i]) &&
                   forall j :: 0 <= j < i && WeightedSetOf(cands, j, n) ==> cands[j].weight.value < r.weight
    decreases |cands|
  {
    if cands != [] {
      var prefix := cands[..|cands| - 1];
      var last := |cands| - 1;
      var x := cands[last];
      MaxOfExercise(prefix, n);
      var before := ConsiderAll(NoMaxes, prefix);
      assert forall i :: 0 <= i < last ==> cands[i] == prefix[i];
      assert forall i :: 0 <= i < last ==> (WeightedSetOf(cands, i, n) <==> WeightedSetOf(prefix, i, n));
      if x.name == n && Weighted(x) {
        if n in before.byName {
          var r := before.byName[n];
          var i :| WeightedSetOf(prefix, i, n) && r == RecOf(prefix[i]) &&
                   forall j :: 0 <= j < i && WeightedSetOf(prefix, j, n) ==> prefix[j].weight.value < r.weight;
          if x.weight.value > r.weight {
            assert WeightedSetOf(cands, last, n);
          } else {
            assert WeightedSetOf(cands, i, n);
          }
        } else {
          assert WeightedSetOf(cands, last, n);
        }
      } else if n in before.byName {
        var r := before.byName[n];
        var i :| WeightedSetOf(prefix, i, n) && r == RecOf(prefix[i]) &&
                 forall j :: 0 <= j < i && WeightedSetOf(prefix, j, n) ==> prefix[j].weight.value < r.weight;
        assert WeightedSetOf(cands, i, n);
      }
    }
  }

  /** `((current - previous) / previous) * 100`. */
  function PercentChange(current: real, previous: real): real
    requires previous > 0.0
  {
    (current - previous) / previous * 100.0
  }

  /** The change is positive, zero or negative exactly as the weight went up, stayed or went down. */
  lemma PercentChangeSign(current: real, previous: real)
    requires previous > 0.0
    ensures PercentChange(current, previous) > 0.0 <==> current > previous
    ensures PercentChange(current, previous) == 0.0 <==> current == previous
    ensures PercentChange(current, previous) < 0.0 <==> current < previous
  {
    var q := (current - previous) / previous;
    assert q * previous == current - previous;
    if q > 0.0 {
      assert q * previous > 0.0;
    } else if q < 0.0 {
      assert q * previous < 0.0;
    }
  }

  /** How this month's best set is described, or that there is none. */
  datatype Detail = SetDetail(sets: int, reps: int, weight: real, unit: string) | NoDataThisMonth

  datatype ReportEntry = ReportEntry(
    name: string,
    current: Option<real>,
    previous: Option<real>,
    unit: string,
    change: Option<real>,
    detail: Detail)

  /** The entry built for one exercise name from the two months' records. */
  function EntryFor(name: string, curr: map<string, MaxRec>, prev: map<string, MaxRec>): ReportEntry
  {
    var currentW := if name in curr then Some(curr[name].weight) else None;
    var previousW := if name in prev then Some(prev[name].weight) else None;
    var unit :=
      if name in curr && curr[name].unit != "" then curr[name].unit
      else if name in prev && prev[name].unit != "" then prev[name].unit
      else "lbs";
    var change :=
      if currentW.Some? && previousW.Some? && previousW.value > 0.0
      then Some(PercentChange(currentW.value, previousW.value))
      else None;
    var detail := if name in curr then SetDetail(curr[name].sets, curr[name].reps, curr[name].weight, unit) else NoDataThisMonth;
    ReportEntry(name, currentW, previousW, unit, change, detail)
  }

  /**
   * One entry of the report: each weight is present exactly when its month
   * has a record; the unit is the current month's, else the previous
   * month's; a change is given exactly when both weights are present and the
   * previous one is positive, and its sign follows the weights; the detail
   * describes this month's record or says there is none.
   */
  lemma EntryFacts(name: string, curr: map<string, MaxRec>, prev: map<string, MaxRec>)
    requires forall n :: n in curr ==> curr[n].unit != ""
    requires forall n :: n in prev ==> prev[n].unit != ""
    ensures var e := EntryFor(name, curr, prev);
      && e.name == name
      && (e.current.Some? <==> name in curr)
      && (name in curr ==> e.current.value == curr[name].weight && e.unit == curr[name].unit)
      && (e.previous.Some? <==> name in prev)
      && (name in prev ==> e.previous.value == prev[name].weight)
      && (name !in curr && name in prev ==> e.unit == prev[name].unit)
      && (name !in curr && name !in prev ==> e.unit == "lbs")
      && (e.change.Some? <==> name in curr && name in prev && prev[name].weight > 0.0)
      && (e.change.Some? ==> (e.change.value > 0.0 <==> curr[name].weight > prev[name].weight))
      && (e.change.Some? ==> (e.change.value < 0.0 <==> curr[name].weight < prev[name].weight))
      && (e.detail.NoDataThisMonth? <==> name !in curr)
      && (name in curr ==> e.detail == SetDetail(curr[name].sets, curr[name].reps, curr[name].weight, curr[name].unit))
  {
    if name in curr && name in prev && prev[name].weight > 0.0 {
      PercentChangeSign(curr[name].weight, prev[name].weight);
    }
  }

  /**
   * `strengthReport`: one entry per exercise with a weighted set in either
   * month, in strictly ascending name order, each built from the two
   * months' records.
   */
  method Report(workouts: seq<Workout>, currStartMs: int, currEndMs: int, prevStartMs: int, prevEndMs: int)
    returns (entries: seq<ReportEntry>)
    ensures StrictlySorted(seq(|entries|, i requires 0 <= i < |entries| => entries[i].name))
    ensures forall n :: Listed(entries, n) <==>
              HasWeightedSet(Candidates(workouts, currStartMs, currEndMs), n) ||
              HasWeightedSet(Candidates(workouts, prevStartMs, prevEndMs), n)
    ensures forall i :: 0 <= i < |entries| ==>
              entries[i] == EntryFor(entries[i].name,
                                     ConsiderAll(NoMaxes, Candidates(workouts, currStartMs, currEndMs)).byName,
                                     ConsiderAll(NoMaxes, Candidates(workouts, prevStartMs, prevEndMs)).byName)
  {
    var currNames, currentMaxes := MaxByExercise(workouts, currStartMs, currEndMs);
    var prevNames, prevMaxes := MaxByExercise(workouts, prevStartMs, prevEndMs);
    ConsiderAllWellKept(NoMaxes, Candidates(workouts, currStartMs, currEndMs));
    ConsiderAllWellKept(NoMaxes, Candidates(workouts, prevStartMs, prevEndMs));
    var allExercises := SortUnique(currNames + prevNames);
    entries := [];
    var i := 0;
    while i < |allExercises|
      invariant 0 <= i <= |allExercises|
      invariant |entries| == i
      invariant forall k :: 0 <= k < i ==> entries[k] == EntryFor(allExercises[k], currentMaxes, prevMaxes)
    {
      entries := entries + [EntryFor(allExercises[i], currentMaxes, prevMaxes)];
      i := i + 1;
    }
    assert seq(|entries|, k requires 0 <= k < |entries| => entries[k].name) == allExercises;
    forall n
      ensures Listed(entries, n) <==>
              HasWeightedSet(Candidates(workouts, currStartMs, currEndMs), n) ||
              HasWeightedSet(Candidates(workouts, prevStartMs, prevEndMs), n)
    {
      MaxOfExercise(Candidates(workouts, currStartMs, currEndMs), n);
      MaxOfExercise(Candidates(workouts, prevStartMs, prevEndMs), n);
      if n in allExercises {
        var k :| 0 <= k < |allExercises| && allExercises[k] == n;
        assert entries[k].name == n;
      }
    }
  }
}
