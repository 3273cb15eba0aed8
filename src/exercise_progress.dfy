/*
 * The exercise picker and progression chart of the dashboard
 * (`exerciseNames` and `exerciseProgressionData` in
 * src/app/dashboard/page.tsx).
 *
 * The picker lists, sorted, the distinct names of exercises done with a
 * positive weight. The chart takes the workouts oldest first and, for each
 * set of the selected exercise, adds to the point of the workout's day label
 * its volume, the best estimated one-repetition maximum and the set's
 * description.
 */
module ExerciseProgress {
  import opened Js
  import opened Text
  import opened Workouts

  // The exercise picker.

  /** The names of the weighted exercises of `exs`, in order. */
  function WeightedNamesOf(exs: seq<ExerciseLog>): seq<string>
  {
    if exs == [] then []
    else
      var ex := exs[|exs| - 1];
      WeightedNamesOf(exs[..|exs| - 1]) + (if Weighted(ex) then [ex.name] else [])
  }

  /** The names of the weighted exercises of all workouts, in order. */
  function WeightedNames(ws: seq<Workout>): seq<string>
  {
    if ws == [] then [] else WeightedNames(ws[..|ws| - 1]) + WeightedNamesOf(ws[|ws| - 1].exercises)
  }

  /** One of `exs` is called `n` and done with a positive weight. */
  predicate WeightedIn(exs: seq<ExerciseLog>, n: string)
  {
    exists j :: 0 <= j < |exs| && Weighted(exs[j]) && exs[j].name == n
  }

  /** Some workout has an exercise called `n` done with a positive weight. */
  predicate HasWeighted(ws: seq<Workout>, n: string)
  {
    exists i :: 0 <= i < |ws| && WeightedIn(ws[i].exercises, n)
  }

  lemma {:induction false} WeightedNamesOfMembers(exs: seq<ExerciseLog>, n: string)
    ensures n in WeightedNamesOf(exs) <==> WeightedIn(exs, n)
    decreases |exs|
  {
    if exs != [] {
      var k := |exs| - 1;
      WeightedNamesOfMembers(exs[..k], n);
      if WeightedIn(exs, n) {
        var j :| 0 <= j < |exs| && Weighted(exs[j]) && exs[j].name == n;
        if j < k { assert exs[..k][j] == exs[j]; }
      }
      if WeightedIn(exs[..k], n) {
        var j :| 0 <= j < k && Weighted(exs[..k][j]) && exs[..k][j].name == n;
        assert exs[j] == exs[..k][j];
      }
    }
  }

  lemma {:induction false} WeightedNamesMembers(ws: seq<Workout>, n: string)
    ensures n in WeightedNames(ws) <==> HasWeighted(ws, n)
    decreases |ws|
  {
    if ws != [] {
      var k := |ws| - 1;
      WeightedNamesMembers(ws[..k], n);
      WeightedNamesOfMembers(ws[k].exercises, n);
      assert WeightedNames(ws) == WeightedNames(ws[..k]) + WeightedNamesOf(ws[k].exercises);
      if HasWeighted(ws, n) {
        var i :| 0 <= i < |ws| && WeightedIn(ws[i].exercises, n);
        if i < k { assert ws[..k][i] == ws[i]; }
      }
      if HasWeighted(ws[..k], n) {
        var i :| 0 <= i < k && WeightedIn(ws[..k][i].exercises, n);
        assert ws[i] == ws[..k][i];
      }
    }
  }

  /**
   * `exerciseNames`: the distinct names of the exercises done with a
   * positive weight, in ascending code-unit order.
   */
  function ExerciseNames(ws: seq<Workout>): (r: seq<string>)
    ensures StrictlySorted(r)
    ensures forall n :: n in r <==> HasWeighted(ws, n)
  {
    var names := WeightedNames(ws);
    assert forall n :: n in names <==> HasWeighted(ws, n) by {
      forall n ensures n in names <==> HasWeighted(ws, n) { WeightedNamesMembers(ws, n); }
    }
    SortUnique(names)
  }

  // The progression chart.

  /** Oldest first (ties allowed). */
  predicate OldestFirst(s: seq<Workout>)
  {
    forall i, j :: 0 <= i < j < |s| ==> s[i].date <= s[j].date
  }

  /** The workouts of `s` dated `d`, in list order. */
  function OnDate(s: seq<Workout>, d: int): seq<Workout>
  {
    if s == [] then []
    else
      var last := s[|s| - 1];
      OnDate(s[..|s| - 1], d) + (if last.date == d then [last] else [])
  }

  lemma OnDateSnoc(s: seq<Workout>, x: Workout, d: int)
    ensures OnDate(s + [x], d) == OnDate(s, d) + (if x.date == d then [x] else [])
  {
    assert (s + [x])[..|s|] == s;
  }

  /** Place `x` after every workout of `s` dated no later than it (so ties keep list order). */
  function InsertAscending(x: Workout, s: seq<Workout>): (r: seq<Workout>)
    requires OldestFirst(s)
    ensures OldestFirst(r)
    ensures multiset(r) == multiset(s) + multiset{x}
    ensures forall i :: 0 <= i < |r| ==> r[i].date <= LatestDate(x, s)
  {
    if s == [] || s[|s| - 1].date <= x.date then
      s + [x]
    else
      var last := s[|s| - 1];
      var init := InsertAscending(x, s[..|s| - 1]);
      assert s == s[..|s| - 1] + [last];
      assert LatestDate(x, s[..|s| - 1]) <= last.date;
      init + [last]
  }

  /** Inserting `x` appends it to the workouts of its own date and leaves every other date alone. */
  lemma {:induction false} InsertAscendingOnDate(x: Workout, s: seq<Workout>, d: int)
    requires OldestFirst(s)
    ensures OnDate(InsertAscending(x, s), d) == OnDate(s, d) + (if x.date == d then [x] else [])
    decreases |s|
  {
    if s == [] || s[|s| - 1].date <= x.date {
      OnDateSnoc(s, x, d);
    } else {
      var last := s[|s| - 1];
      var init := s[..|s| - 1];
      InsertAscendingLater(x, s);
      var r0 := InsertAscending(x, init);
      InsertAscendingOnDate(x, init, d);
      OnDateSnoc(r0, last, d);
      OnDateSnoc(init, last, d);
      var a := OnDate(init, d);
      if x.date == d {
        assert OnDate(s, d) == a;
        assert OnDate(r0, d) == a + [x];
      } else {
        assert OnDate(r0, d) == a;
      }
    }
  }

  /** A workout dated before the last one is inserted into the rest, and the last one stays last. */
  lemma InsertAscendingLater(x: Workout, s: seq<Workout>)
    requires OldestFirst(s) && s != [] && x.date < s[|s| - 1].date
    ensures OldestFirst(s[..|s| - 1])
    ensures s == s[..|s| - 1] + [s[|s| - 1]]
    ensures InsertAscending(x, s) == InsertAscending(x, s[..|s| - 1]) + [s[|s| - 1]]
  {
  }

  /** The latest date among `x` and the oldest-first list `s`. */
  function LatestDate(x: Workout, s: seq<Workout>): int
  {
    if s == [] || s[|s| - 1].date <= x.date then x.date else s[|s| - 1].date
  }

  /**
   * `workouts.slice().sort((a, b) => a.date - b.date)`: oldest first, a
   * permutation of the input, and stable: the workouts of each date keep
   * their input order.
   */
  function SortAscending(ws: seq<Workout>): (r: seq<Workout>)
    ensures OldestFirst(r)
    ensures multiset(r) == multiset(ws)
    ensures forall d :: OnDate(r, d) == OnDate(ws, d)
  {
    if ws == [] then []
    else
      var init := ws[..|ws| - 1];
      var last := ws[|ws| - 1];
      assert ws == init + [last];
      var sorted := SortAscending(init);
      SortStep(init, last, sorted);
      InsertAscending(last, sorted)
  }

  /** Inserting the last workout into the sorted rest keeps every date's workouts in input order. */
  lemma SortStep(init: seq<Workout>, last: Workout, sorted: seq<Workout>)
    requires OldestFirst(sorted)
    requires forall d :: OnDate(sorted, d) == OnDate(init, d)
    ensures forall d :: OnDate(InsertAscending(last, sorted), d) == OnDate(init + [last], d)
  {
    forall d ensures OnDate(InsertAscending(last, sorted), d) == OnDate(init + [last], d) {
      InsertAscendingOnDate(last, sorted, d);
      OnDateSnoc(init, last, d);
    }
  }

  /** One set of the selected exercise, filed under its workout's day label. */
  datatype Item = Item(key: string, ex: ExerciseLog)

  /** The sets of `exs` named `selected`, filed under `key`. */
  function ItemsOf(exs: seq<ExerciseLog>, selected: string, key: string): seq<Item>
  {
    if exs == [] then []
    else
      var ex := exs[|exs| - 1];
      ItemsOf(exs[..|exs| - 1], selected, key) + (if ex.name == selected then [Item(key, ex)] else [])
  }

  /** The sets named `selected` of every workout, in list order, filed under `dayKey(date)`. */
  function Items(ws: seq<Workout>, selected: string, dayKey: int -> string): seq<Item>
  {
    if ws == [] then []
    else
      var w := ws[|ws| - 1];
      Items(ws[..|ws| - 1], selected, dayKey) + ItemsOf(w.exercises, selected, dayKey(w.date))
  }

  /** `${ex.sets}x${ex.reps} @ ${ex.weight}${ex.unit || 'lbs'}`, before number formatting. */
  datatype SetLabel = SetLabel(sets: Option<int>, reps: Option<int>, weight: Option<real>, unit: string)

  function LabelOf(ex: ExerciseLog): SetLabel
  {
    SetLabel(ex.sets, ex.reps, ex.weight, OrString(ex.unit, "lbs"))
  }

  /** `(ex.weight || 0) * (ex.reps || 0) * (ex.sets || 0)`. */
  function SetVolume(ex: ExerciseLog): real
  {
    OrZeroReal(ex.weight) * OrZero(ex.reps) as real * OrZero(ex.sets) as real
  }

  /** `(ex.weight || 0) * (1 + (ex.reps || 0) / 30)`: the Epley estimate of the one-repetition maximum. */
  function EstimatedMax(ex: ExerciseLog): real
  {
    OrZeroReal(ex.weight) * (1.0 + OrZero(ex.reps) as real / 30.0)
  }

  /** One chart point; `bestSet` is the list of set descriptions that the source joins with ", ". */
  datatype Point = Point(date: string, volume: real, oneRepMax: real, bestSet: seq<SetLabel>)

  /** `dataByDate` with its keys in insertion order. */
  datatype Chart = Chart(keys: seq<string>, byDate: map<string, Point>)

  /** One set added to the chart. */
  function AddItem(c: Chart, it: Item): Chart
  {
    if it.key in c.byDate then
      var p := c.byDate[it.key];
      var best := if EstimatedMax(it.ex) > p.oneRepMax then EstimatedMax(it.ex) else p.oneRepMax;
      Chart(c.keys, c.byDate[it.key := Point(p.date, p.volume + SetVolume(it.ex), best, p.bestSet + [LabelOf(it.ex)])])
    else
      Chart(c.keys + [it.key], c.byDate[it.key := Point(it.key, SetVolume(it.ex), EstimatedMax(it.ex), [LabelOf(it.ex)])])
  }

  /** The chart after adding the sets `items` to `c`, in order. */
  function AddAll(c: Chart, items: seq<Item>): Chart
  {
    if items == [] then c else AddItem(AddAll(c, items[..|items| - 1]), items[|items| - 1])
  }

  lemma {:induction false} AddAllAppend(c: Chart, a: seq<Item>, b: seq<Item>)
    ensures AddAll(c, a + b) == AddAll(AddAll(c, a), b)
    decreases |b|
  {
    if b == [] {
      assert a + b == a;
    } else {
      assert (a + b)[..|a + b| - 1] == a + b[..|b| - 1];
      AddAllAppend(c, a, b[..|b| - 1]);
    }
  }

  const EmptyChart := Chart([], map[])

  /** Keys listed once each, and exactly the keys of the map. */
  ghost predicate ChartKeyed(c: Chart)
  {
    && (forall k :: k in c.keys <==> k in c.byDate)
    && (forall a, b :: 0 <= a < b < |c.keys| ==> c.keys[a] != c.keys[b])
  }

  /** `Object.values(dataByDate)`: the points in key insertion order. */
  function Values(c: Chart): (r: seq<Point>)
    requires ChartKeyed(c)
    ensures |r| == |c.keys|
    ensures forall i :: 0 <= i < |r| ==> r[i] == c.byDate[c.keys[i]]
  {
    seq(|c.keys|, i requires 0 <= i < |c.keys| => c.byDate[c.keys[i]])
  }

  lemma {:induction false} AddAllKeyed(c: Chart, items: seq<Item>)
    requires ChartKeyed(c)
    ensures ChartKeyed(AddAll(c, items))
    decreases |items|
  {
    if items != [] {
      AddAllKeyed(c, items[..|items| - 1]);
    }
  }

  lemma ItemsOfSnoc(exs: seq<ExerciseLog>, j: nat, selected: string, key: string)
    requires j < |exs|
    ensures exs[j].name == selected ==> ItemsOf(exs[..j + 1], selected, key) == ItemsOf(exs[..j], selected, key) + [Item(key, exs[j])]
    ensures exs[j].name != selected ==> ItemsOf(exs[..j + 1], selected, key) == ItemsOf(exs[..j], selected, key)
  {
    assert exs[..j + 1][..j] == exs[..j];
    assert ItemsOf(exs[..j], selected, key) + [] == ItemsOf(exs[..j], selected, key);
  }

  lemma AddAllSnoc(c: Chart, done: seq<Item>, it: Item)
    ensures AddAll(c, done + [it]) == AddItem(AddAll(c, done), it)
  {
    assert (done + [it])[..|done|] == done;
  }

  /** The inner loop of `exerciseProgressionData`: the sets of one workout added to `dataByDate`. */
  method AddWorkoutSets(keys: seq<string>, dataByDate: map<string, Point>, exs: seq<ExerciseLog>, selected: string, dateKey: string)
    returns (keys': seq<string>, dataByDate': map<string, Point>)
    ensures Chart(keys', dataByDate') == AddAll(Chart(keys, dataByDate), ItemsOf(exs, selected, dateKey))
  {
    keys', dataByDate' := keys, dataByDate;
    var j := 0;
    while j < |exs|
      invariant 0 <= j <= |exs|
      invariant Chart(keys', dataByDate') == AddAll(Chart(keys, dataByDate), ItemsOf(exs[..j], selected, dateKey))
    {
      var ex := exs[j];
      ItemsOfSnoc(exs, j, selected, dateKey);
      if ex.name == selected {
        ghost var it := Item(dateKey, ex);
        ghost var done := ItemsOf(exs[..j], selected, dateKey);
        AddAllSnoc(Chart(keys, dataByDate), done, it);
        ghost var before := Chart(keys', dataByDate');
        var vol := SetVolume(ex);
        var est1RM := EstimatedMax(ex);
        var setLabel := LabelOf(ex);
        if dateKey in dataByDate' {
          var p := dataByDate'[dateKey];
          var best := p.oneRepMax;
          if est1RM > best {
            best := est1RM;
          }
          dataByDate' := dataByDate'[dateKey := Point(p.date, p.volume + vol, best, p.bestSet + [setLabel])];
        } else {
          dataByDate' := dataByDate'[dateKey := Point(dateKey, vol, est1RM, [setLabel])];
          keys' := keys' + [dateKey];
        }
        assert Chart(keys', dataByDate') == AddItem(before, it);
      }
      j := j + 1;
    }
    assert exs[..j] == exs;
  }

  /**
   * `exerciseProgressionData`: nothing when no exercise is selected;
   * otherwise one point per day label, in order of first appearance among
   * the workouts sorted oldest first.
   */
  method ProgressionData(workouts: seq<Workout>, selected: string, dayKey: int -> string) returns (r: seq<Point>)
    ensures selected == "" ==> r == []
    ensures selected != "" ==> ChartKeyed(AddAll(EmptyChart, Items(SortAscending(workouts), selected, dayKey)))
    ensures selected != "" ==> r == Values(AddAll(EmptyChart, Items(SortAscending(workouts), selected, dayKey)))
  {
    if selected == "" {
      return [];
    }
    var sorted := SortAscending(workouts);
    var keys: seq<string> := [];
    var dataByDate: map<string, Point> := map[];
    var i := 0;
    while i < |sorted|
      invariant 0 <= i <= |sorted|
      invariant Chart(keys, dataByDate) == AddAll(EmptyChart, Items(sorted[..i], selected, dayKey))
    {
      var w := sorted[i];
      ghost var before := Items(sorted[..i], selected, dayKey);
      keys, dataByDate := AddWorkoutSets(keys, dataByDate, w.exercises, selected, dayKey(w.date));
      AddAllAppend(EmptyChart, before, ItemsOf(w.exercises, selected, dayKey(w.date)));
      assert sorted[..i + 1][..i] == sorted[..i];
      i := i + 1;
    }
    assert sorted[..i] == sorted;
    AddAllKeyed(EmptyChart, Items(sorted, selected, dayKey));
    r := Values(Chart(keys, dataByDate));
  }

  /** The sets among `items` filed under `k`, in order. */
  function OnDay(items: seq<Item>, k: string): seq<ExerciseLog>
  {
    if items == [] then []
    else
      var it := items[|items| - 1];
      OnDay(items[..|items| - 1], k) + (if it.key == k then [it.ex] else [])
  }

  /** Sum of the set volumes of `exs`. */
  function TotalVolume(exs: seq<ExerciseLog>): real
  {
    if exs == [] then 0.0 else TotalVolume(exs[..|exs| - 1]) + SetVolume(exs[|exs| - 1])
  }

  /** The set descriptions of `exs`, in order. */
  function Labels(exs: seq<ExerciseLog>): seq<SetLabel>
  {
    if exs == [] then [] else Labels(exs[..|exs| - 1]) + [LabelOf(exs[|exs| - 1])]
  }

  /**
   * What the chart holds for day label `k`: a point exactly when some set
   * is filed under `k`, dated `k`, whose volume is the sum over those sets,
   * whose estimated maximum is the largest of theirs, and whose set list
   * describes them in order.
   */
  lemma {:induction false} ChartPoint(items: seq<Item>, k: string)
    ensures k in AddAll(EmptyChart, items).byDate <==> OnDay(items, k) != []
    ensures k in AddAll(EmptyChart, items).byDate ==>
              var p := AddAll(EmptyChart, items).byDate[k];
              && p.date == k
              && p.volume == TotalVolume(OnDay(items, k))
              && p.bestSet == Labels(OnDay(items, k))
              && (forall e :: e in OnDay(items, k) ==> EstimatedMax(e) <= p.oneRepMax)
              && (exists e :: e in OnDay(items, k) && EstimatedMax(e) == p.oneRepMax)
    decreases |items|
  {
    if items != [] {
      var prefix := items[..|items| - 1];
      var it := items[|items| - 1];
      ChartPoint(prefix, k);
      if it.key == k {
        var before := OnDay(prefix, k);
        assert OnDay(items, k) == before + [it.ex];
        assert (before + [it.ex])[..|before|] == before;
        if before == [] {
          assert OnDay(items, k) == [it.ex];
          assert Labels([it.ex]) == [LabelOf(it.ex)];
        }
      } else {
        assert OnDay(items, k) == OnDay(prefix, k);
      }
    }
  }

  /** Every set on the chart is one of the selected exercise, taken from some workout. */
  lemma {:induction false} ItemsSelected(ws: seq<Workout>, selected: string, dayKey: int -> string)
    ensures forall it :: it in Items(ws, selected, dayKey) ==>
              it.ex.name == selected && exists w :: w in ws && it.ex in w.exercises && it.key == dayKey(w.date)
    decreases |ws|
  {
    if ws != [] {
      var prefix := ws[..|ws| - 1];
      var w := ws[|ws| - 1];
      ItemsSelected(prefix, selected, dayKey);
      ItemsOfSelected(w.exercises, selected, dayKey(w.date));
      forall it | it in Items(ws, selected, dayKey)
        ensures it.ex.name == selected && exists v :: v in ws && it.ex in v.exercises && it.key == dayKey(v.date)
      {
        if it in Items(prefix, selected, dayKey) {
          var v :| v in prefix && it.ex in v.exercises && it.key == dayKey(v.date);
          assert v in ws;
        } else {
          assert w in ws;
        }
      }
    }
  }

  lemma {:induction false} ItemsOfSelected(exs: seq<ExerciseLog>, selected: string, key: string)
    ensures forall it :: it in ItemsOf(exs, selected, key) ==> it.ex.name == selected && it.ex in exs && it.key == key
    decreases |exs|
  {
    if exs != [] {
      ItemsOfSelected(exs[..|exs| - 1], selected, key);
      forall it | it in ItemsOf(exs, selected, key)
        ensures it.ex.name == selected && it.ex in exs && it.key == key
      {
        if it in ItemsOf(exs[..|exs| - 1], selected, key) {
          assert it.ex in exs[..|exs| - 1];
        }
      }
    }
  }
}
