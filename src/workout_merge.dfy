/*
 * The same-date merge of the dashboard (`mergedWorkouts` in
 * src/app/dashboard/page.tsx): workouts are grouped by date; the first
 * workout of a date is copied, and every later one is merged into it
 * (exercises appended, the larger difficulty kept, notes and transcripts
 * joined); the groups are then listed newest first.
 */
module WorkoutMerge {
  import opened Js
  import opened Workouts

  function Max(a: int, b: int): int
  {
    if a >= b then a else b
  }

  /** The merge of workout `w` into the record already kept for its date. */
  function MergeInto(acc: Workout, w: Workout): Workout
  {
    acc.(exercises := acc.exercises + w.exercises,
         difficulty := Some(Max(OrZero(acc.difficulty), OrZero(w.difficulty))),
         userNotes := Some(JoinTruthy(acc.userNotes, w.userNotes, " | ")),
         rawTranscript := Some(JoinTruthy(acc.rawTranscript, w.rawTranscript, "\n")))
  }

  /** `byDate[d]` after the workouts `ws`, or None when none of them is dated `d`. */
  function MergedOn(ws: seq<Workout>, d: int): Option<Workout>
  {
    if ws == [] then None
    else
      var prev := MergedOn(ws[..|ws| - 1], d);
      var w := ws[|ws| - 1];
      if w.date != d then prev
      else if prev.None? then Some(w)
      else Some(MergeInto(prev.value, w))
  }

  lemma MergedOnSnoc(ws: seq<Workout>, i: nat, d: int)
    requires i < |ws|
    ensures MergedOn(ws[..i + 1], d) ==
            if ws[i].date != d then MergedOn(ws[..i], d)
            else if MergedOn(ws[..i], d).None? then Some(ws[i])
            else Some(MergeInto(MergedOn(ws[..i], d).value, ws[i]))
  {
    assert ws[..i + 1][..i] == ws[..i];
  }

  /** Newest first, and so never two entries of the same date. */
  predicate NewestFirst(s: seq<Workout>)
  {
    forall i, j :: 0 <= i < j < |s| ==> s[i].date > s[j].date
  }

  /** Insert one merged record into a newest-first list that has no record of its date. */
  function InsertByDate(x: Workout, s: seq<Workout>): (r: seq<Workout>)
    requires NewestFirst(s)
    requires forall y :: y in s ==> y.date != x.date
    ensures NewestFirst(r)
    ensures forall y :: y in r <==> y in s || y == x
    ensures |r| == |s| + 1
  {
    if s == [] then [x]
    else if x.date > s[0].date then [x] + s
    else
      var rest := InsertByDate(x, s[1..]);
      assert forall y :: y in rest ==> s[0].date > y.date by {
        forall y | y in rest ensures s[0].date > y.date {
          if y != x {
            var j :| 0 <= j < |s[1..]| && s[1..][j] == y;
            assert s[j + 1] == y;
          }
        }
      }
      [s[0]] + rest
  }

  /** The set of dates of a list of workouts. */
  function DatesOf(ws: seq<Workout>): set<int>
  {
    set i | 0 <= i < |ws| :: ws[i].date
  }

  /**
   * `mergedWorkouts`: one entry per distinct date, newest first, each the
   * merge of that date's workouts in list order.
   */
  method MergedWorkouts(workouts: seq<Workout>) returns (r: seq<Workout>)
    ensures NewestFirst(r)
    ensures forall k :: 0 <= k < |r| ==> MergedOn(workouts, r[k].date) == Some(r[k])
    ensures forall d :: d in DatesOf(workouts) <==> exists k :: 0 <= k < |r| && r[k].date == d
    ensures |r| == |DatesOf(workouts)|
  {
    var byDate: map<int, Workout> := map[];
    var keys: seq<int> := [];
    var i := 0;
    while i < |workouts|
      invariant 0 <= i <= |workouts|
      invariant forall d :: d in byDate <==> MergedOn(workouts[..i], d).Some?
      invariant forall d :: d in byDate ==> byDate[d] == MergedOn(workouts[..i], d).value
      invariant forall d :: d in byDate ==> byDate[d].date == d
      invariant forall a :: 0 <= a < |keys| ==> keys[a] in byDate
      invariant forall d :: d in byDate ==> d in keys
      invariant forall a, b :: 0 <= a < b < |keys| ==> keys[a] != keys[b]
    {
      var w := workouts[i];
      var dateKey := w.date;
      forall d ensures MergedOn(workouts[..i + 1], d) ==
                       if w.date != d then MergedOn(workouts[..i], d)
                       else if MergedOn(workouts[..i], d).None? then Some(w)
                       else Some(MergeInto(MergedOn(workouts[..i], d).value, w)) {
        MergedOnSnoc(workouts, i, d);
      }
      if dateKey in byDate {
        byDate := byDate[dateKey := MergeInto(byDate[dateKey], w)];
      } else {
        byDate := byDate[dateKey := w];
        keys := keys + [dateKey];
      }
      i := i + 1;
    }
    assert workouts[..i] == workouts;

    r := [];
    var k := 0;
    while k < |keys|
      invariant 0 <= k <= |keys|
      invariant forall a :: 0 <= a < |keys| ==> keys[a] in byDate
      invariant NewestFirst(r)
      invariant forall y :: y in r <==> exists a :: 0 <= a < k && y == byDate[keys[a]]
      invariant |r| == k
    {
      assert forall y :: y in r ==> y.date != keys[k] by {
        forall y | y in r ensures y.date != keys[k] {
          var a :| 0 <= a < k && y == byDate[keys[a]];
        }
      }
      r := InsertByDate(byDate[keys[k]], r);
      k := k + 1;
    }
    forall d | d in DatesOf(workouts) ensures exists k :: 0 <= k < |r| && r[k].date == d {
      var j :| 0 <= j < |workouts| && workouts[j].date == d;
      MergedOnSome(workouts, d, j);
      var a :| 0 <= a < |keys| && keys[a] == d;
      var y := byDate[keys[a]];
      assert y in r;
    }
    forall k | 0 <= k < |r| ensures MergedOn(workouts, r[k].date) == Some(r[k]) && r[k].date in DatesOf(workouts) {
      assert r[k] in r;
      var a :| 0 <= a < |keys| && r[k] == byDate[keys[a]];
      MergedOnDate(workouts, keys[a]);
    }
    NewestFirstCount(r);
    assert DatesOf(r) == DatesOf(workouts);
  }

  /** A newest-first list has as many entries as distinct dates. */
  lemma {:induction false} NewestFirstCount(s: seq<Workout>)
    requires NewestFirst(s)
    ensures |DatesOf(s)| == |s|
    decreases |s|
  {
    if s != [] {
      var rest := s[1..];
      NewestFirstCount(rest);
      assert DatesOf(s) == {s[0].date} + DatesOf(rest) by {
        forall d | d in DatesOf(s) ensures d in {s[0].date} + DatesOf(rest) {
          var i :| 0 <= i < |s| && s[i].date == d;
          if i > 0 { assert rest[i - 1] == s[i]; }
        }
        forall d | d in DatesOf(rest) ensures d in DatesOf(s) {
          var i :| 0 <= i < |rest| && rest[i].date == d;
          assert s[i + 1] == rest[i];
        }
      }
      forall i | 0 <= i < |rest| ensures rest[i].date != s[0].date {
        assert rest[i] == s[i + 1];
      }
      assert s[0].date !in DatesOf(rest);
    }
  }

  /** A date has a merged record exactly when some workout has that date. */
  lemma {:induction false} MergedOnSome(ws: seq<Workout>, d: int, j: nat)
    requires j < |ws| && ws[j].date == d
    ensures MergedOn(ws, d).Some?
    decreases |ws|
  {
    var n := |ws| - 1;
    if j < n {
      assert ws[..n][j] == ws[j];
      MergedOnSome(ws[..n], d, j);
    }
  }

  /** A merged record carries the date it is filed under, and that date occurs in the list. */
  lemma {:induction false} MergedOnDate(ws: seq<Workout>, d: int)
    requires MergedOn(ws, d).Some?
    ensures MergedOn(ws, d).value.date == d
    ensures d in DatesOf(ws)
    decreases |ws|
  {
    var n := |ws| - 1;
    if ws[n].date == d {
      assert ws[n].date in DatesOf(ws);
    }
    if MergedOn(ws[..n], d).Some? {
      MergedOnDate(ws[..n], d);
      var j :| 0 <= j < n && ws[..n][j].date == d;
      assert ws[j].date == d;
    }
  }

  // What a merged record holds.

  /** A merged record is the first workout of its date with the later ones folded in: its id is that workout's. */
  lemma {:induction false} MergedKeepsFirst(ws: seq<Workout>, d: int)
    requires MergedOn(ws, d).Some?
    ensures exists i :: 0 <= i < |ws| && ws[i].date == d && (forall j :: 0 <= j < i ==> ws[j].date != d)
                        && MergedOn(ws, d).value.id == ws[i].id
    decreases |ws|
  {
    var n := |ws| - 1;
    var prefix := ws[..n];
    if MergedOn(prefix, d).Some? {
      MergedKeepsFirst(prefix, d);
      var i :| 0 <= i < |prefix| && prefix[i].date == d && (forall j :: 0 <= j < i ==> prefix[j].date != d)
               && MergedOn(prefix, d).value.id == prefix[i].id;
      assert ws[i] == prefix[i];
      assert forall j :: 0 <= j < i ==> ws[j] == prefix[j];
    } else {
      forall j | 0 <= j < n ensures ws[j].date != d {
        if ws[j].date == d {
          assert prefix[j] == ws[j];
          MergedOnSome(prefix, d, j);
        }
      }
    }
  }

  /** The exercises of the workouts dated `d`, concatenated in list order. */
  function ExercisesOn(ws: seq<Workout>, d: int): seq<ExerciseLog>
  {
    if ws == [] then []
    else
      var w := ws[|ws| - 1];
      ExercisesOn(ws[..|ws| - 1], d) + (if w.date == d then w.exercises else [])
  }

  /** No workout is dated `d`: nothing is filed under it. */
  lemma {:induction false} MergedOnNone(ws: seq<Workout>, d: int)
    requires MergedOn(ws, d).None?
    ensures ExercisesOn(ws, d) == []
    ensures forall t :: TextsOn(ws, d, t) == []
    decreases |ws|
  {
    if ws != [] {
      MergedOnNone(ws[..|ws| - 1], d);
    }
  }

  /** A merged record's exercises are all its date's exercises, in list order. */
  lemma {:induction false} MergedExercises(ws: seq<Workout>, d: int)
    requires MergedOn(ws, d).Some?
    ensures MergedOn(ws, d).value.exercises == ExercisesOn(ws, d)
    decreases |ws|
  {
    var n := |ws| - 1;
    var prefix := ws[..n];
    if MergedOn(prefix, d).Some? {
      MergedExercises(prefix, d);
    } else {
      MergedOnNone(prefix, d);
    }
  }

  /**
   * A merged record's difficulty (`|| 0`) is the largest `difficulty || 0`
   * of the workouts of its date.
   */
  lemma {:induction false} MergedDifficulty(ws: seq<Workout>, d: int)
    requires MergedOn(ws, d).Some?
    ensures forall i :: 0 <= i < |ws| && ws[i].date == d ==>
              OrZero(ws[i].difficulty) <= OrZero(MergedOn(ws, d).value.difficulty)
    ensures exists i :: 0 <= i < |ws| && ws[i].date == d &&
              OrZero(ws[i].difficulty) == OrZero(MergedOn(ws, d).value.difficulty)
    decreases |ws|
  {
    var n := |ws| - 1;
    var prefix := ws[..n];
    var m := MergedOn(ws, d).value;
    if MergedOn(prefix, d).Some? {
      MergedDifficulty(prefix, d);
      var p := MergedOn(prefix, d).value;
      forall i | 0 <= i < |ws| && ws[i].date == d ensures OrZero(ws[i].difficulty) <= OrZero(m.difficulty) {
        if i < n { assert prefix[i] == ws[i]; }
      }
      if ws[n].date == d && OrZero(ws[n].difficulty) > OrZero(p.difficulty) {
        assert OrZero(ws[n].difficulty) == OrZero(m.difficulty);
      } else {
        var i :| 0 <= i < |prefix| && prefix[i].date == d && OrZero(prefix[i].difficulty) == OrZero(p.difficulty);
        assert ws[i] == prefix[i];
      }
    } else {
      forall i | 0 <= i < |ws| && ws[i].date == d ensures i == n {
        if i < n {
          assert prefix[i] == ws[i];
          MergedOnSome(prefix, d, i);
        }
      }
    }
  }

  /** The two text columns that are merged by joining. */
  datatype TextColumn = UserNotes | RawTranscript

  function Column(w: Workout, t: TextColumn): Option<string>
  {
    match t
    case UserNotes => w.userNotes
    case RawTranscript => w.rawTranscript
  }

  /** Notes are joined with " | ", transcripts with a newline. */
  function Separator(t: TextColumn): string
  {
    match t
    case UserNotes => " | "
    case RawTranscript => "\n"
  }

  /** The column `t` of the workouts dated `d`, in list order. */
  function TextsOn(ws: seq<Workout>, d: int, t: TextColumn): seq<Option<string>>
  {
    if ws == [] then []
    else
      var w := ws[|ws| - 1];
      TextsOn(ws[..|ws| - 1], d, t) + (if w.date == d then [Column(w, t)] else [])
  }

  /**
   * A merged record's notes (transcript) read as text are the non-empty notes
   * (transcripts) of its date joined with " | " (a newline), in list order.
   */
  lemma {:induction false} MergedText(ws: seq<Workout>, d: int, t: TextColumn)
    requires MergedOn(ws, d).Some?
    ensures OrString(Column(MergedOn(ws, d).value, t), "") == Join(Compact(TextsOn(ws, d, t)), Separator(t))
    decreases |ws|
  {
    var n := |ws| - 1;
    var prefix := ws[..n];
    var w := ws[n];
    if w.date == d {
      assert TextsOn(ws, d, t) == TextsOn(prefix, d, t) + [Column(w, t)];
      if MergedOn(prefix, d).Some? {
        MergedText(prefix, d, t);
        var p := MergedOn(prefix, d).value;
        var acc := Join(Compact(TextsOn(prefix, d, t)), Separator(t));
        JoinTruthyStep(TextsOn(prefix, d, t), Column(w, t), Separator(t));
        assert JoinTruthy(Column(p, t), Column(w, t), Separator(t)) ==
               JoinTruthy(Some(acc), Column(w, t), Separator(t));
      } else {
        MergedOnNone(prefix, d);
        var x := Column(w, t);
        assert TextsOn(ws, d, t) == [x];
        assert [x][..0] == [];
        assert Compact([x]) == if Truthy(x) then [x.value] else [];
      }
    } else {
      assert TextsOn(prefix, d, t) + [] == TextsOn(prefix, d, t);
      MergedText(prefix, d, t);
    }
  }
}
