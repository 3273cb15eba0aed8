/*
 * The grouping heuristic of scripts/analyze-svg.js: the centroid of every
 * extracted path (the script stops with a TypeError on a path without a
 * digit), the bounding box of the centroids, each centroid normalised into
 * that box, and a first-match-wins decision tree that files the path's index
 * under one of six coarse groups or reports it as unclassified.
 *
 * A normalised coordinate is `None` where JavaScript computes NaN: the box
 * has zero width (or height), so numerator and denominator are both 0.
 * Every comparison with NaN is false, which `Gt`, `Lt`, `Le` and `AbsLt`
 * reproduce.
 */
module SvgAnalysis {
  import opened Js
  import opened SvgPath

  /** A centroid with the index of its path. */
  datatype Indexed = Indexed(c: Point, i: nat)

  /** The outcome of the script: a value, or the TypeError thrown while handling path `index`. */
  datatype Outcome<T> = Ok(value: T) | Throws(index: nat)

  /** `d.match(/-?\d+(\.\d+)?/g)` is non-null exactly when `d` holds a digit. */
  predicate HasDigit(d: string)
  {
    exists k :: 0 <= k < |d| && IsDigit(d[k])
  }

  /** `paths.map((p, i) => getCentroid(p, i))`. */
  method Centroids(paths: seq<string>) returns (r: Outcome<seq<Indexed>>)
    ensures r.Throws? <==> exists i :: 0 <= i < |paths| && !HasDigit(paths[i])
    ensures r.Throws? ==> r.index < |paths| && !HasDigit(paths[r.index]) &&
                          forall j :: 0 <= j < r.index ==> HasDigit(paths[j])
    ensures r.Ok? ==> |r.value| == |paths| &&
                      forall i :: 0 <= i < |paths| ==> r.value[i] == Indexed(Centroid(paths[i]), i)
  {
    var centroids: seq<Indexed> := [];
    var i := 0;
    while i < |paths|
      invariant 0 <= i <= |paths|
      invariant |centroids| == i
      invariant forall j :: 0 <= j < i ==> HasDigit(paths[j])
      invariant forall j :: 0 <= j < i ==> centroids[j] == Indexed(Centroid(paths[j]), j)
    {
      if !HasDigit(paths[i]) {
        return Throws(i);
      }
      var c := GetCentroid(paths[i]);
      centroids := centroids + [Indexed(c, i)];
      i := i + 1;
    }
    return Ok(centroids);
  }

  datatype Bounds = Bounds(minX: real, maxX: real, minY: real, maxY: real)

  function Min(a: real, b: real): real { if a <= b then a else b }
  function Max(a: real, b: real): real { if a >= b then a else b }

  /** `Math.min`/`Math.max` of the centroid coordinates. */
  function BoundsOf(cs: seq<Indexed>): Bounds
    requires |cs| > 0
  {
    var c := cs[|cs| - 1].c;
    if |cs| == 1 then Bounds(c.x, c.x, c.y, c.y)
    else
      var b := BoundsOf(cs[..|cs| - 1]);
      Bounds(Min(b.minX, c.x), Max(b.maxX, c.x), Min(b.minY, c.y), Max(b.maxY, c.y))
  }

  predicate InBox(c: Point, b: Bounds)
  {
    b.minX <= c.x <= b.maxX && b.minY <= c.y <= b.maxY
  }

  /** The bounds hold every centroid, and each of the four is attained by one. */
  lemma {:induction false} BoundsTight(cs: seq<Indexed>)
    requires |cs| > 0
    ensures forall k :: 0 <= k < |cs| ==> InBox(cs[k].c, BoundsOf(cs))
    ensures exists k :: 0 <= k < |cs| && cs[k].c.x == BoundsOf(cs).minX
    ensures exists k :: 0 <= k < |cs| && cs[k].c.x == BoundsOf(cs).maxX
    ensures exists k :: 0 <= k < |cs| && cs[k].c.y == BoundsOf(cs).minY
    ensures exists k :: 0 <= k < |cs| && cs[k].c.y == BoundsOf(cs).maxY
    decreases |cs|
  {
    var last := |cs| - 1;
    if |cs| > 1 {
      var prefix := cs[..last];
      BoundsTight(prefix);
      assert forall k :: 0 <= k < last ==> cs[k] == prefix[k];
      var b := BoundsOf(prefix);
      if b.minX > cs[last].c.x {
        assert cs[last].c.x == BoundsOf(cs).minX;
      } else {
        var k :| 0 <= k < last && prefix[k].c.x == b.minX;
        assert cs[k].c.x == BoundsOf(cs).minX;
      }
      if b.maxX < cs[last].c.x {
        assert cs[last].c.x == BoundsOf(cs).maxX;
      } else {
        var k :| 0 <= k < last && prefix[k].c.x == b.maxX;
        assert cs[k].c.x == BoundsOf(cs).maxX;
      }
      if b.minY > cs[last].c.y {
        assert cs[last].c.y == BoundsOf(cs).minY;
      } else {
        var k :| 0 <= k < last && prefix[k].c.y == b.minY;
        assert cs[k].c.y == BoundsOf(cs).minY;
      }
      if b.maxY < cs[last].c.y {
        assert cs[last].c.y == BoundsOf(cs).maxY;
      } else {
        var k :| 0 <= k < last && prefix[k].c.y == b.maxY;
        assert cs[k].c.y == BoundsOf(cs).maxY;
      }
    } else {
      assert cs[0].c.x == BoundsOf(cs).minX;
    }
  }

  /** `(c.x - centerX) / (maxX - minX) * 2`, NaN (`None`) when the box has no width. */
  function NormX(c: Point, b: Bounds): Option<real>
  {
    var centerX := (b.minX + b.maxX) / 2.0;
    if b.maxX - b.minX == 0.0 then None else Some((c.x - centerX) / (b.maxX - b.minX) * 2.0)
  }

  /** `(c.y - minY) / (maxY - minY)`, NaN (`None`) when the box has no height. */
  function NormY(c: Point, b: Bounds): Option<real>
  {
    if b.maxY - b.minY == 0.0 then None else Some((c.y - b.minY) / (b.maxY - b.minY))
  }

  /** Comparisons as JavaScript evaluates them: false whenever NaN is involved. */
  predicate Gt(a: Option<real>, t: real) { a.Some? && a.value > t }
  predicate Lt(a: Option<real>, t: real) { a.Some? && a.value < t }
  predicate Le(a: Option<real>, t: real) { a.Some? && a.value <= t }
  /** `Math.abs(a) < t`. */
  predicate AbsLt(a: Option<real>, t: real) { a.Some? && -t < a.value < t }

  datatype Zone = HeadZone | ChestZone | AbsZone | LegsZone | LeftArm | RightArm | Unclassified

  /** The grouping decision tree; the first matching rule wins. */
  function ZoneOf(nX: Option<real>, nY: Option<real>): Zone
  {
    if Gt(nY, 0.85) then HeadZone
    else if Gt(nY, 0.6) && AbsLt(nX, 0.3) then ChestZone
    else if Gt(nY, 0.4) && Le(nY, 0.6) && AbsLt(nX, 0.3) then AbsZone
    else if Lt(nY, 0.45) && AbsLt(nX, 0.4) then LegsZone
    else if Lt(nX, -0.3) && Gt(nY, 0.4) then LeftArm
    else if Gt(nX, 0.3) && Gt(nY, 0.4) then RightArm
    else Unclassified
  }

  function ZoneIn(c: Point, b: Bounds): Zone
  {
    ZoneOf(NormX(c, b), NormY(c, b))
  }

  /** A centroid inside a box of positive width and height normalises into [-1, 1] by [0, 1]. */
  lemma NormalisedRange(c: Point, b: Bounds)
    requires InBox(c, b)
    requires b.maxX > b.minX && b.maxY > b.minY
    ensures NormX(c, b).Some? && -1.0 <= NormX(c, b).value <= 1.0
    ensures NormY(c, b).Some? && 0.0 <= NormY(c, b).value <= 1.0
  {
    var w := b.maxX - b.minX;
    var h := b.maxY - b.minY;
    var nx := (c.x - (b.minX + b.maxX) / 2.0) / w * 2.0;
    var ny := (c.y - b.minY) / h;
    assert nx * w == 2.0 * c.x - b.minX - b.maxX;
    assert ny * h == c.y - b.minY;
    assert -w <= 2.0 * c.x - b.minX - b.maxX <= w;
    ScaledBetween(nx, w, -1.0, 1.0);
    ScaledBetween(ny, h, 0.0, 1.0);
  }

  lemma ScaledBetween(q: real, w: real, lo: real, hi: real)
    requires w > 0.0
    requires lo * w <= q * w <= hi * w
    ensures lo <= q <= hi
  {
    assert (q - lo) * w >= 0.0;
    assert (hi - q) * w >= 0.0;
  }

  /**
   * What the decision tree promises: the head group is exactly the top
   * 15 per cent whatever the horizontal position; low centroids far from
   * the middle are unclassified; and a box without width (every normalised
   * x is NaN) puts every path in the head group or leaves it unclassified.
   */
  lemma ZoneFacts(nX: Option<real>, nY: Option<real>)
    ensures ZoneOf(nX, nY) == HeadZone <==> Gt(nY, 0.85)
    ensures nX.Some? && nY.Some? && nY.value <= 0.4 && (nX.value <= -0.4 || nX.value >= 0.4) ==>
              ZoneOf(nX, nY) == Unclassified
    ensures nX.None? ==> ZoneOf(nX, nY) in {HeadZone, Unclassified}
    ensures ZoneOf(nX, nY) == ChestZone ==> 0.6 < nY.value <= 0.85
    ensures ZoneOf(nX, nY) == LegsZone ==> nY.value < 0.45 && -0.4 < nX.value < 0.4
  {
  }

  /** The `groups` object, with the indices the script reports as unclassified. */
  datatype Groups = Groups(
    head: seq<nat>, chest: seq<nat>, abs: seq<nat>, legs: seq<nat>,
    leftArm: seq<nat>, rightArm: seq<nat>, unclassified: seq<nat>)

  const NoGroups := Groups([], [], [], [], [], [], [])

  function Members(g: Groups, z: Zone): seq<nat>
  {
    match z
    case HeadZone => g.head
    case ChestZone => g.chest
    case AbsZone => g.abs
    case LegsZone => g.legs
    case LeftArm => g.leftArm
    case RightArm => g.rightArm
    case Unclassified => g.unclassified
  }

  /** `groups[z].push(i)`. */
  function Push(g: Groups, z: Zone, i: nat): Groups
  {
    match z
    case HeadZone => g.(head := g.head + [i])
    case ChestZone => g.(chest := g.chest + [i])
    case AbsZone => g.(abs := g.abs + [i])
    case LegsZone => g.(legs := g.legs + [i])
    case LeftArm => g.(leftArm := g.leftArm + [i])
    case RightArm => g.(rightArm := g.rightArm + [i])
    case Unclassified => g.(unclassified := g.unclassified + [i])
  }

  /** The indices of the centroids among `cs` that land in zone `z`, in order. */
  function IndicesIn(cs: seq<Indexed>, b: Bounds, z: Zone): seq<nat>
  {
    if cs == [] then []
    else
      var c := cs[|cs| - 1];
      IndicesIn(cs[..|cs| - 1], b, z) + (if ZoneIn(c.c, b) == z then [c.i] else [])
  }

  /** `centroids.forEach(...)`: every index pushed onto the group of its zone. */
  method GroupCentroids(cs: seq<Indexed>, b: Bounds) returns (g: Groups)
    ensures forall z :: Members(g, z) == IndicesIn(cs, b, z)
  {
    g := NoGroups;
    var k := 0;
    while k < |cs|
      invariant 0 <= k <= |cs|
      invariant forall z :: Members(g, z) == IndicesIn(cs[..k], b, z)
    {
      var c := cs[k];
      assert cs[..k + 1][..k] == cs[..k];
      var nX := NormX(c.c, b);
      var nY := NormY(c.c, b);
      var zone := ZoneOf(nX, nY);
      g := Push(g, zone, c.i);
      k := k + 1;
    }
    assert cs[..k] == cs;
  }

  /** Centroids carrying their own positions as indices, as `paths.map` produces them. */
  predicate Numbered(cs: seq<Indexed>)
  {
    forall k :: 0 <= k < |cs| ==> cs[k].i == k
  }

  /** An index is in the group of zone `z` exactly when its centroid lands in `z`. */
  lemma {:induction false} IndicesInMembers(cs: seq<Indexed>, b: Bounds, z: Zone)
    requires Numbered(cs)
    ensures forall i :: i in IndicesIn(cs, b, z) ==> i < |cs|
    ensures forall i :: 0 <= i < |cs| ==> (i in IndicesIn(cs, b, z) <==> ZoneIn(cs[i].c, b) == z)
    decreases |cs|
  {
    if cs != [] {
      var prefix := cs[..|cs| - 1];
      IndicesInMembers(prefix, b, z);
      assert forall k :: 0 <= k < |prefix| ==> cs[k] == prefix[k];
    }
  }

  /** Each group lists its indices in strictly ascending order, all below `|cs|`. */
  lemma {:induction false} IndicesInAscending(cs: seq<Indexed>, b: Bounds, z: Zone)
    requires Numbered(cs)
    ensures forall p, q :: 0 <= p < q < |IndicesIn(cs, b, z)| ==> IndicesIn(cs, b, z)[p] < IndicesIn(cs, b, z)[q]
    ensures forall p :: 0 <= p < |IndicesIn(cs, b, z)| ==> IndicesIn(cs, b, z)[p] < |cs|
    decreases |cs|
  {
    if cs != [] {
      var prefix := cs[..|cs| - 1];
      IndicesInAscending(prefix, b, z);
    }
  }

  function TotalSize(cs: seq<Indexed>, b: Bounds): nat
  {
    |IndicesIn(cs, b, HeadZone)| + |IndicesIn(cs, b, ChestZone)| + |IndicesIn(cs, b, AbsZone)| +
    |IndicesIn(cs, b, LegsZone)| + |IndicesIn(cs, b, LeftArm)| + |IndicesIn(cs, b, RightArm)| +
    |IndicesIn(cs, b, Unclassified)|
  }

  /** The six groups and the unclassified list together hold exactly one index per centroid. */
  lemma {:induction false} GroupsPartition(cs: seq<Indexed>, b: Bounds)
    ensures TotalSize(cs, b) == |cs|
    decreases |cs|
  {
    if cs != [] {
      GroupsPartition(cs[..|cs| - 1], b);
    }
  }

  /**
   * The whole script: a TypeError at the first path without a digit;
   * otherwise the groups of the centroids normalised into their own bounds
   * (no groups at all when there is no path).
   */
  method Analyze(paths: seq<string>) returns (r: Outcome<Groups>)
    ensures r.Throws? <==> exists i :: 0 <= i < |paths| && !HasDigit(paths[i])
    ensures r.Ok? && paths == [] ==> r.value == NoGroups
    ensures r.Ok? && paths != [] ==>
              var cs := seq(|paths|, i requires 0 <= i < |paths| => Indexed(Centroid(paths[i]), i));
              forall z :: Members(r.value, z) == IndicesIn(cs, BoundsOf(cs), z)
  {
    var centroids := Centroids(paths);
    match centroids
    case Throws(i) =>
      return Throws(i);
    case Ok(cs) =>
      if |cs| == 0 {
        return Ok(NoGroups);
      }
      assert cs == seq(|paths|, i requires 0 <= i < |paths| => Indexed(Centroid(paths[i]), i));
      var g := GroupCentroids(cs, BoundsOf(cs));
      return Ok(g);
  }
}
