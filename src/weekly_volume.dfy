/*
 * The weekly muscle volume of the dashboard (`calculateMuscleVolumes` in
 * src/app/dashboard/page.tsx): every exercise of every workout dated no
 * earlier than seven days before now adds `sets * ratio` to each muscle its
 * activations name, and the running total is rounded to hundredths after
 * every single addition.
 *
 * The loops are specified by one flat list of contributions (one per
 * activation of each counted exercise, in loop order) and the fold of the
 * rounding step over it; the lemmas then say what that fold is.
 */
module WeeklyVolume {
  import opened Js
  import opened MuscleMap
  import opened Workouts

  /** `Math.round(x * 100) / 100`, with `Math.round(y)` as `floor(y + 0.5)`. */
  function Round2(x: real): real
  {
    (x * 100.0 + 0.5).Floor as real / 100.0
  }

  /** The rounded value is a whole number of hundredths within half a hundredth of `x`. */
  lemma Round2Nearest(x: real)
    ensures Round2(x) - 0.005 <= x < Round2(x) + 0.005
    ensures (Round2(x) * 100.0).Floor as real == Round2(x) * 100.0
  {
    var n := (x * 100.0 + 0.5).Floor;
    assert (n as real / 100.0) * 100.0 == n as real;
  }

  /** A whole number of tenths is already a whole number of hundredths. */
  lemma Round2OfTenths(t: int)
    ensures Round2(t as real / 10.0) == t as real / 10.0
  {
    assert (t as real / 10.0) * 100.0 + 0.5 == (10 * t) as real + 0.5;
    assert ((10 * t) as real + 0.5).Floor == 10 * t;
  }

  /** `workoutDate >= oneWeekAgo`; there is no upper bound. */
  predicate InWindow(w: Workout, nowMs: int)
  {
    w.date * MsPerDay >= nowMs - 7 * MsPerDay
  }

  /** One `sets * act.ratio` addition. */
  datatype Contribution = Contribution(sets: int, act: Activation)

  /** The additions one exercise makes: one per activation, in order. */
  function Tag(sets: int, acts: seq<Activation>): (r: seq<Contribution>)
    ensures |r| == |acts|
  {
    if acts == [] then [] else Tag(sets, acts[..|acts| - 1]) + [Contribution(sets, acts[|acts| - 1])]
  }

  /**
   * The additions of a list of exercises, `ex.sets || 0` times each ratio of
   * `resolve(ex.name)`. The dashboard resolves names with `GetActivations`;
   * the fold is stated for any resolver, so its facts do not depend on the
   * contents of the table.
   */
  function ExContribs(exs: seq<ExerciseLog>, resolve: string -> seq<Activation>): seq<Contribution>
  {
    if exs == [] then []
    else
      var ex := exs[|exs| - 1];
      ExContribs(exs[..|exs| - 1], resolve) + Tag(OrZero(ex.sets), resolve(ex.name))
  }

  lemma ExContribsSnoc(exs: seq<ExerciseLog>, j: nat, resolve: string -> seq<Activation>)
    requires j < |exs|
    ensures ExContribs(exs[..j + 1], resolve) ==
            ExContribs(exs[..j], resolve) + Tag(OrZero(exs[j].sets), resolve(exs[j].name))
  {
    assert exs[..j + 1][..j] == exs[..j];
  }

  /** The additions of the workouts in the window, in list order. */
  function Contribs(ws: seq<Workout>, nowMs: int, resolve: string -> seq<Activation>): seq<Contribution>
  {
    if ws == [] then []
    else
      var w := ws[|ws| - 1];
      Contribs(ws[..|ws| - 1], nowMs, resolve) + (if InWindow(w, nowMs) then ExContribs(w.exercises, resolve) else [])
  }

  /** `volumes[m] || 0`. */
  function Current(vol: map<Muscle, real>, m: Muscle): real
  {
    if m in vol then vol[m] else 0.0
  }

  /** `sets * act.ratio`. */
  function Volume(c: Contribution): real
  {
    c.sets as real * Ratio(c.act)
  }

  /** `volumes[m] = Math.round((current + volume) * 100) / 100`. */
  function Step(vol: map<Muscle, real>, c: Contribution): map<Muscle, real>
  {
    vol[c.act.muscle := Round2(Current(vol, c.act.muscle) + Volume(c))]
  }

  /** The running totals after a list of additions, starting from `{}`. */
  function VolFold(cs: seq<Contribution>): map<Muscle, real>
  {
    if cs == [] then map[] else Step(VolFold(cs[..|cs| - 1]), cs[|cs| - 1])
  }

  lemma VolFoldSnoc(cs: seq<Contribution>, c: Contribution)
    ensures VolFold(cs + [c]) == Step(VolFold(cs), c)
  {
    assert (cs + [c])[..|cs|] == cs;
  }

  /** Folding the additions of `b` after those of `a`. */
  function StepAll(vol: map<Muscle, real>, cs: seq<Contribution>): map<Muscle, real>
  {
    if cs == [] then vol else Step(StepAll(vol, cs[..|cs| - 1]), cs[|cs| - 1])
  }

  lemma {:induction false} StepAllAppend(vol: map<Muscle, real>, a: seq<Contribution>, b: seq<Contribution>)
    ensures StepAll(vol, a + b) == StepAll(StepAll(vol, a), b)
    decreases |b|
  {
    if b == [] {
      assert a + b == a;
    } else {
      assert (a + b)[..|a + b| - 1] == a + b[..|b| - 1];
      StepAllAppend(vol, a, b[..|b| - 1]);
    }
  }

  lemma {:induction false} VolFoldIsStepAll(cs: seq<Contribution>)
    ensures VolFold(cs) == StepAll(map[], cs)
    decreases |cs|
  {
    if cs != [] {
      VolFoldIsStepAll(cs[..|cs| - 1]);
    }
  }

  lemma VolFoldAppend(a: seq<Contribution>, b: seq<Contribution>)
    ensures VolFold(a + b) == StepAll(VolFold(a), b)
  {
    VolFoldIsStepAll(a + b);
    VolFoldIsStepAll(a);
    StepAllAppend(map[], a, b);
  }

  /** The `activations.forEach` of one exercise: each ratio times `sets`, rounded. */
  method AddActivations(vol: map<Muscle, real>, sets: int, acts: seq<Activation>) returns (r: map<Muscle, real>)
    ensures r == StepAll(vol, Tag(sets, acts))
  {
    r := vol;
    var k := 0;
    while k < |acts|
      invariant 0 <= k <= |acts|
      invariant r == StepAll(vol, Tag(sets, acts[..k]))
    {
      var c := Contribution(sets, acts[k]);
      var volume := Volume(c);
      var current := Current(r, c.act.muscle);
      assert acts[..k + 1][..k] == acts[..k];
      ghost var done := Tag(sets, acts[..k]);
      assert Tag(sets, acts[..k + 1]) == done + [c];
      assert (done + [c])[..|done|] == done;
      assert StepAll(vol, done + [c]) == Step(r, c);
      r := r[c.act.muscle := Round2(current + volume)];
      k := k + 1;
    }
    assert acts[..k] == acts;
  }

  /** The `workout.exercises.forEach` of one in-window workout. */
  method AddExercises(vol: map<Muscle, real>, exs: seq<ExerciseLog>, resolve: string -> seq<Activation>)
    returns (r: map<Muscle, real>)
    ensures r == StepAll(vol, ExContribs(exs, resolve))
  {
    r := vol;
    var j := 0;
    while j < |exs|
      invariant 0 <= j <= |exs|
      invariant r == StepAll(vol, ExContribs(exs[..j], resolve))
    {
      var ex := exs[j];
      var sets := OrZero(ex.sets);
      var activations := resolve(ex.name);
      r := AddActivations(r, sets, activations);
      ExContribsSnoc(exs, j, resolve);
      StepAllAppend(vol, ExContribs(exs[..j], resolve), Tag(sets, activations));
      j := j + 1;
    }
    assert exs[..j] == exs;
  }

  /**
   * `calculateMuscleVolumes(data)`, with "now" passed in as an instant in
   * milliseconds and the name resolver (`getActivations` in the dashboard,
   * `MuscleMap.GetActivations` here) as a parameter: the totals are the fold
   * of the rounding step over the additions of the in-window workouts.
   */
  method CalculateMuscleVolumes(data: seq<Workout>, nowMs: int, resolve: string -> seq<Activation>)
    returns (volumes: map<Muscle, real>)
    ensures volumes == VolFold(Contribs(data, nowMs, resolve))
    ensures forall m :: m in volumes <==> Worked(data, nowMs, resolve, m)
    ensures forall m :: Current(volumes, m) == WindowTenths(data, nowMs, resolve, m) as real / 10.0
  {
    volumes := map[];
    var i := 0;
    while i < |data|
      invariant 0 <= i <= |data|
      invariant volumes == VolFold(Contribs(data[..i], nowMs, resolve))
    {
      var workout := data[i];
      assert data[..i + 1][..i] == data[..i];
      if InWindow(workout, nowMs) {
        volumes := AddExercises(volumes, workout.exercises, resolve);
        assert Contribs(data[..i + 1], nowMs, resolve) ==
               Contribs(data[..i], nowMs, resolve) + ExContribs(workout.exercises, resolve);
        VolFoldAppend(Contribs(data[..i], nowMs, resolve), ExContribs(workout.exercises, resolve));
      } else {
        assert Contribs(data[..i], nowMs, resolve) + [] == Contribs(data[..i], nowMs, resolve);
      }
      i := i + 1;
    }
    assert data[..i] == data;
    forall m
      ensures (m in volumes <==> Worked(data, nowMs, resolve, m))
      ensures Current(volumes, m) == WindowTenths(data, nowMs, resolve, m) as real / 10.0
    {
      WeeklyVolumes(data, nowMs, resolve, m);
    }
  }


  // What the fold computes.

  /** Some addition of `cs` is to muscle `m`. */
  predicate Mentions(cs: seq<Contribution>, m: Muscle)
  {
    exists k :: 0 <= k < |cs| && cs[k].act.muscle == m
  }

  /** The exact total, in tenths, that the additions of `cs` make to muscle `m`. */
  function Tenths(cs: seq<Contribution>, m: Muscle): int
  {
    if cs == [] then 0
    else
      var c := cs[|cs| - 1];
      Tenths(cs[..|cs| - 1], m) + (if c.act.muscle == m then c.sets * c.act.tenths else 0)
  }

  lemma MentionsSnoc(cs: seq<Contribution>, c: Contribution, m: Muscle)
    ensures Mentions(cs + [c], m) <==> Mentions(cs, m) || c.act.muscle == m
  {
    if Mentions(cs, m) {
      var k :| 0 <= k < |cs| && cs[k].act.muscle == m;
      assert (cs + [c])[k] == cs[k];
    }
    if c.act.muscle == m {
      assert (cs + [c])[|cs|] == c;
    }
    if Mentions(cs + [c], m) && c.act.muscle != m {
      var k :| 0 <= k < |cs + [c]| && (cs + [c])[k].act.muscle == m;
      assert k < |cs| && cs[k] == (cs + [c])[k];
    }
  }

  /** A muscle has a total exactly when some addition was made to it. */
  lemma {:induction false} VolFoldKeys(cs: seq<Contribution>, m: Muscle)
    ensures m in VolFold(cs) <==> Mentions(cs, m)
    decreases |cs|
  {
    if cs != [] {
      var prefix := cs[..|cs| - 1];
      VolFoldKeys(prefix, m);
      assert cs == prefix + [cs[|cs| - 1]];
      MentionsSnoc(prefix, cs[|cs| - 1], m);
    }
  }

  lemma VolumeInTenths(c: Contribution)
    ensures Volume(c) == (c.sets * c.act.tenths) as real / 10.0
  {
    assert (c.sets * c.act.tenths) as real == c.sets as real * c.act.tenths as real;
  }

  /**
   * Rounding after every addition never changes a total: each total is the
   * exact sum of `sets * ratio` over the additions to that muscle (and 0 for
   * a muscle with no addition).
   */
  lemma {:induction false} VolFoldExact(cs: seq<Contribution>, m: Muscle)
    ensures Current(VolFold(cs), m) == Tenths(cs, m) as real / 10.0
    decreases |cs|
  {
    if cs != [] {
      var prefix := cs[..|cs| - 1];
      var c := cs[|cs| - 1];
      VolFoldExact(prefix, m);
      if c.act.muscle == m {
        var t := Tenths(prefix, m);
        VolumeInTenths(c);
        assert Current(VolFold(prefix), m) + Volume(c) == (t + c.sets * c.act.tenths) as real / 10.0;
        Round2OfTenths(t + c.sets * c.act.tenths);
      }
    }
  }

  // The additions in terms of the workouts.

  lemma TagAt(sets: int, acts: seq<Activation>, k: nat)
    requires k < |acts|
    ensures Tag(sets, acts)[k] == Contribution(sets, acts[k])
    decreases |acts|
  {
    if k < |acts| - 1 {
      TagAt(sets, acts[..|acts| - 1], k);
    }
  }

  lemma MentionsAppend(a: seq<Contribution>, b: seq<Contribution>, m: Muscle)
    ensures Mentions(a + b, m) <==> Mentions(a, m) || Mentions(b, m)
  {
    if Mentions(a, m) {
      var k :| 0 <= k < |a| && a[k].act.muscle == m;
      assert (a + b)[k] == a[k];
    }
    if Mentions(b, m) {
      var k :| 0 <= k < |b| && b[k].act.muscle == m;
      assert (a + b)[|a| + k] == b[k];
    }
    if Mentions(a + b, m) {
      var k :| 0 <= k < |a + b| && (a + b)[k].act.muscle == m;
      if k < |a| {
        assert a[k] == (a + b)[k];
      } else {
        assert b[k - |a|] == (a + b)[k];
      }
    }
  }

  /** The activation list `acts` names muscle `m`. */
  predicate Trains(acts: seq<Activation>, m: Muscle)
  {
    exists k :: 0 <= k < |acts| && acts[k].muscle == m
  }

  lemma MentionsTag(sets: int, acts: seq<Activation>, m: Muscle)
    ensures Mentions(Tag(sets, acts), m) <==> Trains(acts, m)
  {
    if Trains(acts, m) {
      var k :| 0 <= k < |acts| && acts[k].muscle == m;
      TagAt(sets, acts, k);
    }
    if Mentions(Tag(sets, acts), m) {
      var k :| 0 <= k < |Tag(sets, acts)| && Tag(sets, acts)[k].act.muscle == m;
      TagAt(sets, acts, k);
    }
  }

  /** Some exercise of `exs` resolves to an activation of `m`. */
  predicate ExerciseTrains(exs: seq<ExerciseLog>, resolve: string -> seq<Activation>, m: Muscle)
  {
    exists j :: 0 <= j < |exs| && Trains(resolve(exs[j].name), m)
  }

  lemma {:induction false} MentionsExContribs(exs: seq<ExerciseLog>, resolve: string -> seq<Activation>, m: Muscle)
    ensures Mentions(ExContribs(exs, resolve), m) <==> ExerciseTrains(exs, resolve, m)
    decreases |exs|
  {
    if exs != [] {
      var n := |exs| - 1;
      var prefix := exs[..n];
      MentionsExContribs(prefix, resolve, m);
      MentionsAppend(ExContribs(prefix, resolve), Tag(OrZero(exs[n].sets), resolve(exs[n].name)), m);
      MentionsTag(OrZero(exs[n].sets), resolve(exs[n].name), m);
      if ExerciseTrains(prefix, resolve, m) {
        var j :| 0 <= j < |prefix| && Trains(resolve(prefix[j].name), m);
        assert exs[j] == prefix[j];
      }
      if ExerciseTrains(exs, resolve, m) && !Trains(resolve(exs[n].name), m) {
        var j :| 0 <= j < |exs| && Trains(resolve(exs[j].name), m);
        assert prefix[j] == exs[j];
      }
    }
  }

  /** Some in-window workout of `ws` has an exercise that resolves to an activation of `m`. */
  predicate Worked(ws: seq<Workout>, nowMs: int, resolve: string -> seq<Activation>, m: Muscle)
  {
    exists i :: 0 <= i < |ws| && WorkedIn(ws[i], nowMs, resolve, m)
  }

  /** Workout `w` is in the window and has an exercise that resolves to an activation of `m`. */
  predicate WorkedIn(w: Workout, nowMs: int, resolve: string -> seq<Activation>, m: Muscle)
  {
    InWindow(w, nowMs) && ExerciseTrains(w.exercises, resolve, m)
  }

  lemma WorkedSnoc(ws: seq<Workout>, nowMs: int, resolve: string -> seq<Activation>, m: Muscle)
    requires ws != []
    ensures Worked(ws, nowMs, resolve, m) <==>
            Worked(ws[..|ws| - 1], nowMs, resolve, m) || WorkedIn(ws[|ws| - 1], nowMs, resolve, m)
  {
    var prefix := ws[..|ws| - 1];
    if Worked(prefix, nowMs, resolve, m) {
      var i :| 0 <= i < |prefix| && WorkedIn(prefix[i], nowMs, resolve, m);
      assert ws[i] == prefix[i];
    }
    if Worked(ws, nowMs, resolve, m) && !WorkedIn(ws[|ws| - 1], nowMs, resolve, m) {
      var i :| 0 <= i < |ws| && WorkedIn(ws[i], nowMs, resolve, m);
      assert prefix[i] == ws[i];
    }
  }

  lemma {:induction false} MentionsContribs(ws: seq<Workout>, nowMs: int, resolve: string -> seq<Activation>, m: Muscle)
    ensures Mentions(Contribs(ws, nowMs, resolve), m) <==> Worked(ws, nowMs, resolve, m)
    decreases |ws|
  {
    if ws != [] {
      var n := |ws| - 1;
      var prefix := ws[..n];
      var w := ws[n];
      MentionsContribs(prefix, nowMs, resolve, m);
      var tail := if InWindow(w, nowMs) then ExContribs(w.exercises, resolve) else [];
      MentionsAppend(Contribs(prefix, nowMs, resolve), tail, m);
      MentionsExContribs(w.exercises, resolve, m);
      WorkedSnoc(ws, nowMs, resolve, m);
    }
  }

  /** The tenths of muscle `m` in one activation list (0 when it does not name `m`). */
  function TenthsOf(acts: seq<Activation>, m: Muscle): int
  {
    if acts == [] then 0
    else TenthsOf(acts[..|acts| - 1], m) + (if acts[|acts| - 1].muscle == m then acts[|acts| - 1].tenths else 0)
  }

  /** Σ `(ex.sets || 0) * ratio` over the exercises, for muscle `m`, in tenths and unrounded. */
  function ExerciseTenths(exs: seq<ExerciseLog>, resolve: string -> seq<Activation>, m: Muscle): int
  {
    if exs == [] then 0
    else
      var ex := exs[|exs| - 1];
      ExerciseTenths(exs[..|exs| - 1], resolve, m) + OrZero(ex.sets) * TenthsOf(resolve(ex.name), m)
  }

  /** Σ over the in-window workouts of their exercise totals for muscle `m`, in tenths. */
  function WindowTenths(ws: seq<Workout>, nowMs: int, resolve: string -> seq<Activation>, m: Muscle): int
  {
    if ws == [] then 0
    else
      var w := ws[|ws| - 1];
      WindowTenths(ws[..|ws| - 1], nowMs, resolve, m) +
        (if InWindow(w, nowMs) then ExerciseTenths(w.exercises, resolve, m) else 0)
  }

  lemma {:induction false} TenthsAppend(a: seq<Contribution>, b: seq<Contribution>, m: Muscle)
    ensures Tenths(a + b, m) == Tenths(a, m) + Tenths(b, m)
    decreases |b|
  {
    if b == [] {
      assert a + b == a;
    } else {
      assert (a + b)[..|a + b| - 1] == a + b[..|b| - 1];
      TenthsAppend(a, b[..|b| - 1], m);
    }
  }

  lemma {:induction false} TenthsTag(sets: int, acts: seq<Activation>, m: Muscle)
    ensures Tenths(Tag(sets, acts), m) == sets * TenthsOf(acts, m)
    decreases |acts|
  {
    if acts != [] {
      var prefix := acts[..|acts| - 1];
      var a := acts[|acts| - 1];
      TenthsTag(sets, prefix, m);
      TenthsAppend(Tag(sets, prefix), [Contribution(sets, a)], m);
      assert [Contribution(sets, a)][..0] == [];
      var t := if a.muscle == m then a.tenths else 0;
      assert sets * (TenthsOf(prefix, m) + t) == sets * TenthsOf(prefix, m) + sets * t;
    }
  }

  lemma {:induction false} TenthsExContribs(exs: seq<ExerciseLog>, resolve: string -> seq<Activation>, m: Muscle)
    ensures Tenths(ExContribs(exs, resolve), m) == ExerciseTenths(exs, resolve, m)
    decreases |exs|
  {
    if exs != [] {
      var n := |exs| - 1;
      TenthsExContribs(exs[..n], resolve, m);
      TenthsAppend(ExContribs(exs[..n], resolve), Tag(OrZero(exs[n].sets), resolve(exs[n].name)), m);
      TenthsTag(OrZero(exs[n].sets), resolve(exs[n].name), m);
    }
  }

  lemma {:induction false} TenthsContribs(ws: seq<Workout>, nowMs: int, resolve: string -> seq<Activation>, m: Muscle)
    ensures Tenths(Contribs(ws, nowMs, resolve), m) == WindowTenths(ws, nowMs, resolve, m)
    decreases |ws|
  {
    if ws != [] {
      var n := |ws| - 1;
      var w := ws[n];
      TenthsContribs(ws[..n], nowMs, resolve, m);
      var tail := if InWindow(w, nowMs) then ExContribs(w.exercises, resolve) else [];
      TenthsAppend(Contribs(ws[..n], nowMs, resolve), tail, m);
      TenthsExContribs(w.exercises, resolve, m);
    }
  }

  /**
   * The weekly volumes: a muscle is a key exactly when some exercise of some
   * workout dated in the window resolves to an activation of it (an exercise
   * with zero or missing sets still adds the key, with 0; an unresolved name
   * adds none); and its value is exactly Σ sets × ratio over those exercises.
   */
  lemma WeeklyVolumes(data: seq<Workout>, nowMs: int, resolve: string -> seq<Activation>, m: Muscle)
    ensures m in VolFold(Contribs(data, nowMs, resolve)) <==> Worked(data, nowMs, resolve, m)
    ensures Current(VolFold(Contribs(data, nowMs, resolve)), m) == WindowTenths(data, nowMs, resolve, m) as real / 10.0
  {
    VolFoldKeys(Contribs(data, nowMs, resolve), m);
    MentionsContribs(data, nowMs, resolve, m);
    VolFoldExact(Contribs(data, nowMs, resolve), m);
    TenthsContribs(data, nowMs, resolve, m);
  }
}
