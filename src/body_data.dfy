/*
 * The region classifier of scripts/generate-body-data.js: every extracted
 * path is labelled by where its centroid lies (a front view left of
 * x = 3300, a back view right of it, each cut into height bands), one
 * label per path in input order, and the labelled paths are then split into
 * the anterior and the posterior list by the same x test.
 */
module BodyData {
  import opened SvgPath

  /** The labels the script can give; `Unknown` is the initial value of `type`. */
  datatype Label =
    | Unknown
    | Head | FrontDeltoids | Chest | Biceps | Abs | Forearm | Quadriceps | Calves
    | Trapezius | BackDeltoids | UpperBack | Triceps | LowerBack | Gluteal | Hamstring
    | Lats

  /** `SPLIT_X`: centroids left of it belong to the front view. */
  const SplitX: real := 3300.0

  predicate FrontView(c: Point)
  {
    c.x < SplitX
  }

  /** The band decision tree of both views. */
  function BandLabel(c: Point): Label
  {
    if FrontView(c) then
      if c.y > 3600.0 then Head
      else if c.y > 3000.0 then (if c.x < 1200.0 || c.x > 2100.0 then FrontDeltoids else Chest)
      else if c.y > 2500.0 then (if c.x < 1200.0 || c.x > 2100.0 then Biceps else Abs)
      else if c.y > 1800.0 then (if c.x < 1000.0 || c.x > 2300.0 then Forearm else Abs)
      else if c.y > 1000.0 then Quadriceps
      else Calves
    else
      if c.y > 3400.0 then Trapezius
      else if c.y > 2800.0 then (if c.x < 4200.0 || c.x > 5300.0 then BackDeltoids else UpperBack)
      else if c.y > 2300.0 then (if c.x < 4000.0 || c.x > 5500.0 then Triceps else LowerBack)
      else if c.y > 1900.0 then (if c.x < 4000.0 || c.x > 5500.0 then Forearm else Gluteal)
      else if c.y > 1000.0 then Hamstring
      else Calves
  }

  /** The label of a centroid: the band label, then the lats correction for an upper back below 2800. */
  function Classify(c: Point): Label
  {
    var t := BandLabel(c);
    if t == UpperBack && c.y < 2800.0 then Lats else t
  }

  /**
   * Each label read back as the region it covers. Abs, forearm and calves
   * cover two bands; front and back labels never mix; no centroid is left
   * unknown and none is relabelled lats.
   */
  lemma LabelRegions(c: Point)
    ensures Classify(c) != Unknown
    ensures Classify(c) != Lats
    ensures Classify(c) == Head <==> FrontView(c) && c.y > 3600.0
    ensures Classify(c) == Chest <==> FrontView(c) && 3000.0 < c.y <= 3600.0 && 1200.0 <= c.x <= 2100.0
    ensures Classify(c) == FrontDeltoids <==> FrontView(c) && 3000.0 < c.y <= 3600.0 && (c.x < 1200.0 || c.x > 2100.0)
    ensures Classify(c) == Biceps <==> FrontView(c) && 2500.0 < c.y <= 3000.0 && (c.x < 1200.0 || c.x > 2100.0)
    ensures Classify(c) == Abs <==>
              FrontView(c) && ((2500.0 < c.y <= 3000.0 && 1200.0 <= c.x <= 2100.0) ||
                               (1800.0 < c.y <= 2500.0 && 1000.0 <= c.x <= 2300.0))
    ensures Classify(c) == Forearm <==>
              (FrontView(c) && 1800.0 < c.y <= 2500.0 && (c.x < 1000.0 || c.x > 2300.0)) ||
              (!FrontView(c) && 1900.0 < c.y <= 2300.0 && (c.x < 4000.0 || c.x > 5500.0))
    ensures Classify(c) == Quadriceps <==> FrontView(c) && 1000.0 < c.y <= 1800.0
    ensures Classify(c) == Calves <==> c.y <= 1000.0
    ensures Classify(c) == Trapezius <==> !FrontView(c) && c.y > 3400.0
    ensures Classify(c) == UpperBack <==> !FrontView(c) && 2800.0 < c.y <= 3400.0 && 4200.0 <= c.x <= 5300.0
    ensures Classify(c) == BackDeltoids <==> !FrontView(c) && 2800.0 < c.y <= 3400.0 && (c.x < 4200.0 || c.x > 5300.0)
    ensures Classify(c) == Triceps <==> !FrontView(c) && 2300.0 < c.y <= 2800.0 && (c.x < 4000.0 || c.x > 5500.0)
    ensures Classify(c) == LowerBack <==> !FrontView(c) && 2300.0 < c.y <= 2800.0 && 4000.0 <= c.x <= 5500.0
    ensures Classify(c) == Gluteal <==> !FrontView(c) && 1900.0 < c.y <= 2300.0 && 4000.0 <= c.x <= 5500.0
    ensures Classify(c) == Hamstring <==> !FrontView(c) && 1000.0 < c.y <= 1900.0
  {
  }

  /** One `muscleMap` entry: the label and the raw path data. */
  datatype Region = Region(muscle: Label, path: string)

  /** The entry the script pushes for one path. */
  function RegionOf(d: string): Region
  {
    Region(Classify(Centroid(d)), d)
  }

  /** `paths.forEach(...)`: exactly one entry per path, in input order. */
  method BuildMuscleMap(paths: seq<string>) returns (muscleMap: seq<Region>)
    ensures |muscleMap| == |paths|
    ensures forall i :: 0 <= i < |paths| ==> muscleMap[i].path == paths[i]
    ensures forall i :: 0 <= i < |paths| ==> muscleMap[i].muscle == Classify(Centroid(paths[i]))
    ensures Labelled(muscleMap)
  {
    muscleMap := [];
    var i := 0;
    while i < |paths|
      invariant 0 <= i <= |paths|
      invariant |muscleMap| == i
      invariant forall k :: 0 <= k < i ==> muscleMap[k] == RegionOf(paths[k])
    {
      var c := GetCentroid(paths[i]);
      var t := BandLabel(c);
      if t == UpperBack && c.y < 2800.0 {
        t := Lats;
      }
      muscleMap := muscleMap + [Region(t, paths[i])];
      i := i + 1;
    }
  }

  /** `anteriorData`: the entries whose path's centroid is in the front view, in order. */
  function Anterior(mm: seq<Region>): seq<Region>
  {
    if mm == [] then []
    else Anterior(mm[..|mm| - 1]) + (if FrontView(Centroid(mm[|mm| - 1].path)) then [mm[|mm| - 1]] else [])
  }

  /** `posteriorData`: the entries whose path's centroid is in the back view, in order. */
  function Posterior(mm: seq<Region>): seq<Region>
  {
    if mm == [] then []
    else Posterior(mm[..|mm| - 1]) + (if FrontView(Centroid(mm[|mm| - 1].path)) then [] else [mm[|mm| - 1]])
  }

  /**
   * The two lists split the map: together they hold every entry exactly as
   * often as the map does, the anterior list only front-view entries and
   * the posterior list only back-view ones.
   */
  lemma Partition(mm: seq<Region>)
    ensures multiset(Anterior(mm)) + multiset(Posterior(mm)) == multiset(mm)
    ensures |Anterior(mm)| + |Posterior(mm)| == |mm|
    ensures forall r :: r in Anterior(mm) ==> FrontView(Centroid(r.path))
    ensures forall r :: r in Posterior(mm) ==> !FrontView(Centroid(r.path))
  {
    PartitionCounts(mm);
    PartitionViews(mm);
  }

  /** Every entry goes to exactly one of the two lists. */
  lemma {:induction false} PartitionCounts(mm: seq<Region>)
    ensures multiset(Anterior(mm)) + multiset(Posterior(mm)) == multiset(mm)
    ensures |Anterior(mm)| + |Posterior(mm)| == |mm|
    decreases |mm|
  {
    if mm != [] {
      var prefix := mm[..|mm| - 1];
      PartitionCounts(prefix);
      CountsStep(mm);
      MultisetInitLast(mm);
    }
  }

  lemma MultisetInitLast<T>(s: seq<T>)
    requires s != []
    ensures multiset(s) == multiset(s[..|s| - 1]) + multiset{s[|s| - 1]}
  {
    assert s == s[..|s| - 1] + [s[|s| - 1]];
  }

  /** The last entry adds one to exactly one of the two lists. */
  lemma CountsStep(mm: seq<Region>)
    requires mm != []
    ensures multiset(Anterior(mm)) + multiset(Posterior(mm)) ==
            multiset(Anterior(mm[..|mm| - 1])) + multiset(Posterior(mm[..|mm| - 1])) + multiset{mm[|mm| - 1]}
    ensures |Anterior(mm)| + |Posterior(mm)| == |Anterior(mm[..|mm| - 1])| + |Posterior(mm[..|mm| - 1])| + 1
  {
    PartitionStep(mm);
  }

  /** Each list holds only entries of its own view. */
  lemma {:induction false} PartitionViews(mm: seq<Region>)
    ensures forall r :: r in Anterior(mm) ==> FrontView(Centroid(r.path))
    ensures forall r :: r in Posterior(mm) ==> !FrontView(Centroid(r.path))
    decreases |mm|
  {
    if mm != [] {
      PartitionViews(mm[..|mm| - 1]);
      PartitionStep(mm);
    }
  }

  /** The last entry goes to exactly one of the two lists. */
  lemma PartitionStep(mm: seq<Region>)
    requires mm != []
    ensures var last := mm[|mm| - 1];
      if FrontView(Centroid(last.path))
      then Anterior(mm) == Anterior(mm[..|mm| - 1]) + [last] && Posterior(mm) == Posterior(mm[..|mm| - 1])
      else Anterior(mm) == Anterior(mm[..|mm| - 1]) && Posterior(mm) == Posterior(mm[..|mm| - 1]) + [last]
  {
  }

  predicate FrontLabel(l: Label)
  {
    l in {Head, FrontDeltoids, Chest, Biceps, Abs, Forearm, Quadriceps, Calves}
  }

  predicate BackLabel(l: Label)
  {
    l in {Trapezius, BackDeltoids, UpperBack, Triceps, LowerBack, Gluteal, Forearm, Hamstring, Calves}
  }

  lemma ClassifyView(c: Point)
    ensures FrontView(c) ==> FrontLabel(Classify(c))
    ensures !FrontView(c) ==> BackLabel(Classify(c))
  {
  }

  /** Entries labelled as the script labels them. */
  predicate Labelled(mm: seq<Region>)
  {
    forall i :: 0 <= i < |mm| ==> mm[i].muscle == Classify(Centroid(mm[i].path))
  }

  lemma {:induction false} LabelledMembers(mm: seq<Region>)
    requires Labelled(mm)
    ensures forall r :: r in mm ==> r.muscle == Classify(Centroid(r.path))
  {
    forall r | r in mm
      ensures r.muscle == Classify(Centroid(r.path))
    {
      var i :| 0 <= i < |mm| && mm[i] == r;
    }
  }

  /**
   * In a map built by the script, the anterior list holds only front-view
   * labels and the posterior list only back-view ones (calves and forearm
   * occur in both views).
   */
  lemma ViewLabels(mm: seq<Region>)
    requires Labelled(mm)
    ensures forall r :: r in Anterior(mm) ==> FrontLabel(r.muscle)
    ensures forall r :: r in Posterior(mm) ==> BackLabel(r.muscle)
  {
    Partition(mm);
    LabelledMembers(mm);
    forall r | r in Anterior(mm)
      ensures FrontLabel(r.muscle)
    {
      assert r in multiset(mm);
      ClassifyView(Centroid(r.path));
    }
    forall r | r in Posterior(mm)
      ensures BackLabel(r.muscle)
    {
      assert r in multiset(mm);
      ClassifyView(Centroid(r.path));
    }
  }
}
