/*
 * The heatmap colouring of src/components/HumanBody.tsx: the colour of a
 * muscle from its weekly volume and the hover state, the rendering of the
 * body data into one group of polygons per item with the structural parts
 * left neutral and inert, and the display form of a muscle name.
 *
 * The hovered muscle (component state) is a parameter; rendered elements
 * are values carrying only the attributes that depend on the data.
 */
module HumanBody {
  import opened Js

  const Untrained := "#374151"
  const Low := "#ef4444"
  const Moderate := "#eab308"
  const Optimal := "#22c55e"
  const HoverInactive := "#4b5563"
  const HoverLow := "#f87171"
  const HoverModerate := "#facc15"
  const HoverOptimal := "#4ade80"
  const StructuralFill := "#2a2a35"
  const BgColor := "#0c0c14"
  const HoverStroke := "#ffffff"

  /** `muscleVolumes[muscle] || 0`: a missing muscle has volume 0. */
  function VolumeOf(volumes: map<string, real>, muscle: string): real
  {
    if muscle in volumes then volumes[muscle] else 0.0
  }

  /** `getMuscleColor`. */
  function MuscleColor(volumes: map<string, real>, hovered: Option<string>, muscle: string): string
  {
    var volume := VolumeOf(volumes, muscle);
    var isHovered := hovered == Some(muscle);
    var fill :=
      if volume > 0.0 then
        if volume >= 12.0 then Optimal else if volume >= 5.0 then Moderate else Low
      else Untrained;
    if isHovered then
      if volume > 0.0 then
        if volume >= 12.0 then HoverOptimal else if volume >= 5.0 then HoverModerate else HoverLow
      else HoverInactive
    else fill
  }

  /** The volume band: 0 untrained, 1 low, 2 moderate, 3 optimal. */
  function Band(v: real): (b: nat)
    ensures b <= 3
  {
    if v <= 0.0 then 0 else if v < 5.0 then 1 else if v < 12.0 then 2 else 3
  }

  /** The colour of each band, plain and hovered. */
  function Palette(b: nat, hovered: bool): string
    requires b <= 3
  {
    if hovered then [HoverInactive, HoverLow, HoverModerate, HoverOptimal][b]
    else [Untrained, Low, Moderate, Optimal][b]
  }

  /** The colour is the palette entry of the volume's band, hovered exactly when this muscle is. */
  lemma ColorByBand(volumes: map<string, real>, hovered: Option<string>, muscle: string)
    ensures MuscleColor(volumes, hovered, muscle) == Palette(Band(VolumeOf(volumes, muscle)), hovered == Some(muscle))
  {
  }

  /** More volume never gives a lower band. */
  lemma BandMonotone(v: real, w: real)
    requires v <= w
    ensures Band(v) <= Band(w)
  {
  }

  /** The eight colours are distinct, so the colour tells the band and the hover state apart. */
  lemma PaletteInjective(b: nat, h: bool, c: nat, k: bool)
    requires b <= 3 && c <= 3
    requires Palette(b, h) == Palette(c, k)
    ensures b == c && h == k
  {
  }

  /** `STRUCTURAL_PARTS`. */
  predicate Structural(muscle: string)
  {
    muscle in {"head", "knees", "neck", "left-soleus", "right-soleus"}
  }

  /** One item of the body data: a muscle name and its polygons' point lists. */
  datatype BodyItem = BodyItem(muscle: string, svgPoints: seq<string>)

  datatype Polygon = Polygon(points: string, fill: string, stroke: string, strokeWidth: string)

  /** A `<g>` element: its key `${muscle}-${index}`, whether it has the mouse and click handlers, and its polygons. */
  datatype Group = Group(muscle: string, index: nat, interactive: bool, polygons: seq<Polygon>)

  function StructuralPolygons(pts: seq<string>): seq<Polygon>
  {
    if pts == [] then [] else StructuralPolygons(pts[..|pts| - 1]) + [Polygon(pts[|pts| - 1], StructuralFill, BgColor, "1.2")]
  }

  function MusclePolygons(pts: seq<string>, color: string, isHovered: bool): seq<Polygon>
  {
    if pts == [] then []
    else
      MusclePolygons(pts[..|pts| - 1], color, isHovered) +
      [Polygon(pts[|pts| - 1], color, if isHovered then HoverStroke else BgColor, if isHovered then "1.0" else "1.5")]
  }

  function RenderItem(item: BodyItem, index: nat, volumes: map<string, real>, hovered: Option<string>): Group
  {
    if Structural(item.muscle) then Group(item.muscle, index, false, StructuralPolygons(item.svgPoints))
    else
      var color := MuscleColor(volumes, hovered, item.muscle);
      Group(item.muscle, index, true, MusclePolygons(item.svgPoints, color, hovered == Some(item.muscle)))
  }

  /** `renderMuscles(data)`. */
  function RenderMuscles(data: seq<BodyItem>, volumes: map<string, real>, hovered: Option<string>): (r: seq<Group>)
    ensures |r| == |data|
  {
    seq(|data|, i requires 0 <= i < |data| => RenderItem(data[i], i, volumes, hovered))
  }

  lemma {:induction false} StructuralPolygonsFacts(pts: seq<string>)
    ensures |StructuralPolygons(pts)| == |pts|
    ensures forall p :: 0 <= p < |pts| ==> StructuralPolygons(pts)[p] == Polygon(pts[p], StructuralFill, BgColor, "1.2")
    decreases |pts|
  {
    if pts != [] {
      StructuralPolygonsFacts(pts[..|pts| - 1]);
    }
  }

  lemma {:induction false} MusclePolygonsFacts(pts: seq<string>, color: string, isHovered: bool)
    ensures |MusclePolygons(pts, color, isHovered)| == |pts|
    ensures forall p :: 0 <= p < |pts| ==>
              MusclePolygons(pts, color, isHovered)[p].points == pts[p] &&
              MusclePolygons(pts, color, isHovered)[p].fill == color &&
              (MusclePolygons(pts, color, isHovered)[p].stroke == HoverStroke <==> isHovered)
    decreases |pts|
  {
    if pts != [] {
      MusclePolygonsFacts(pts[..|pts| - 1], color, isHovered);
    }
  }

  /**
   * One group per item, in order and keyed by position, with one polygon
   * per point list; structural parts are filled neutrally whatever their
   * volume and carry no handlers; every other muscle is filled with its
   * heatmap colour, is interactive, and is outlined in white exactly when
   * hovered.
   */
  lemma RenderFacts(data: seq<BodyItem>, volumes: map<string, real>, hovered: Option<string>, i: nat)
    requires i < |data|
    ensures var g := RenderMuscles(data, volumes, hovered)[i];
      && g.muscle == data[i].muscle && g.index == i
      && |g.polygons| == |data[i].svgPoints|
      && (forall p :: 0 <= p < |g.polygons| ==> g.polygons[p].points == data[i].svgPoints[p])
      && (g.interactive <==> !Structural(data[i].muscle))
      && (Structural(data[i].muscle) ==> forall p :: 0 <= p < |g.polygons| ==> g.polygons[p].fill == StructuralFill)
      && (!Structural(data[i].muscle) ==>
            forall p :: 0 <= p < |g.polygons| ==>
              g.polygons[p].fill == MuscleColor(volumes, hovered, data[i].muscle) &&
              (g.polygons[p].stroke == HoverStroke <==> hovered == Some(data[i].muscle)))
  {
    StructuralPolygonsFacts(data[i].svgPoints);
    MusclePolygonsFacts(data[i].svgPoints, MuscleColor(volumes, hovered, data[i].muscle), hovered == Some(data[i].muscle));
  }

  /** `muscle.replace(/-/g, ' ')`. */
  function FormatMuscle(muscle: string): (r: string)
    ensures |r| == |muscle|
    ensures forall k :: 0 <= k < |muscle| ==> r[k] == (if muscle[k] == '-' then ' ' else muscle[k])
  {
    if muscle == [] then []
    else FormatMuscle(muscle[..|muscle| - 1]) + [if muscle[|muscle| - 1] == '-' then ' ' else muscle[|muscle| - 1]]
  }

  /** The display form has no hyphen left, and a name without hyphens is shown unchanged. */
  lemma FormatMuscleFacts(muscle: string)
    ensures forall k :: 0 <= k < |FormatMuscle(muscle)| ==> FormatMuscle(muscle)[k] != '-'
    ensures (forall k :: 0 <= k < |muscle| ==> muscle[k] != '-') ==> FormatMuscle(muscle) == muscle
  {
  }
}
