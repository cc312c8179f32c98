/**
 * The eraser's hit-test rules of the document workspace: which annotations a
 * pointer position touches. A highlight is touched inside any of its boxes
 * widened by a padding; lines and freehand strokes are touched within a
 * stroke-width threshold of one of their segments.
 */
module HitTest {
  import opened Wrappers
  import opened WorkspaceTypes
  import opened WorkspaceUtils

  const ERASER_TARGET_TYPES: set<string> := {"highlight", "underline", "strike", "freehand"}
  const DEFAULT_ERASER_PADDING: real := 0.015

  /** The overlay size handed to the hit test (`width || 0`, `height || 0`). */
  datatype Dimensions = Dimensions(width: real, height: real)

  /** A squared distance, or `Number.POSITIVE_INFINITY`. */
  datatype Dist = Infinite | Finite(v: real)
  {
    predicate AtMost(bound: real) { Finite? && v <= bound }
  }

  function SqDist(p: Point, q: Point): (d: real)
    ensures d >= 0.0
  {
    (p.x - q.x) * (p.x - q.x) + (p.y - q.y) * (p.y - q.y)
  }

  /** `pointWithinRect`: the point lies in the box widened by `padding` on every side, edges included; a missing size counts as 0. */
  predicate PointWithinBox(point: Option<Point>, box: Option<Box>, padding: real)
  {
    point.Some? && box.Some? &&
    var p, b := point.value, box.value;
    var w, h := OrElse(b.width, 0.0), OrElse(b.height, 0.0);
    b.x - padding <= p.x <= b.x + w + padding && b.y - padding <= p.y <= b.y + h + padding
  }

  function RectBox(r: Rect): Box { Box(r.x, r.y, Some(r.width), Some(r.height)) }

  /** `distanceSqPointToSegment`: the squared distance from `point` to the segment a-b, infinite when a point is missing. */
  function DistanceSqPointToSegment(point: Option<Point>, a: Option<Point>, b: Option<Point>): (d: Dist)
    ensures point.None? || a.None? || b.None? <==> d.Infinite?
  {
    if point.None? || a.None? || b.None? then Infinite
    else Finite(SegmentDistSq(point.value, a.value, b.value))
  }

  /** The squared distance from `p` to the closest point of the segment a-b (to `a` itself when a = b). */
  function SegmentDistSq(p: Point, a: Point, b: Point): (d: real)
    ensures d >= 0.0
    ensures a == b ==> d == SqDist(p, a)
  {
    var dx, dy := b.x - a.x, b.y - a.y;
    var lengthSq := dx * dx + dy * dy;
    if lengthSq == 0.0 then
      SqDist(p, a)
    else
      var t := Clamp(((p.x - a.x) * dx + (p.y - a.y) * dy) / lengthSq, 0.0, 1.0);
      SqDistAlong(p, a, dx, dy, t)
  }

  /** The squared distance from `p` to the point `a + t * (dx, dy)`. */
  function SqDistAlong(p: Point, a: Point, dx: real, dy: real, t: real): real
  {
    SqDist(p, Point(a.x + t * dx, a.y + t * dy))
  }

  /** The segment passes through both of its endpoints. */
  lemma SegmentDistSqAtEndpoints(a: Point, b: Point)
    ensures SegmentDistSq(a, a, b) == 0.0
    ensures SegmentDistSq(b, a, b) == 0.0
  {
    var dx, dy := b.x - a.x, b.y - a.y;
    var len := dx * dx + dy * dy;
    if len != 0.0 {
      assert (a.x - a.x) * dx + (a.y - a.y) * dy == 0.0;
      assert SegmentDistSq(a, a, b) == SqDistAlong(a, a, dx, dy, 0.0);
      assert Point(a.x + 0.0 * dx, a.y + 0.0 * dy) == a;
      assert (b.x - a.x) * dx + (b.y - a.y) * dy == len;
      DivSelf(len);
      assert SegmentDistSq(b, a, b) == SqDistAlong(b, a, dx, dy, 1.0);
      assert Point(a.x + 1.0 * dx, a.y + 1.0 * dy) == b;
    } else {
      assert SegmentDistSq(b, a, b) == SqDist(b, a) == len;
    }
  }

  lemma DivSelf(x: real)
    requires x != 0.0
    ensures x / x == 1.0
  {
  }

  /** `getNormalizedStrokeThreshold`: the hit distance for a stroke of the given pixel width. */
  function NormalizedStrokeThreshold(strokeWidth: real, overlay: Option<Dimensions>): (th: real)
    ensures th >= DEFAULT_ERASER_PADDING
    ensures (overlay.None? || overlay.value.width == 0.0 || overlay.value.height == 0.0) ==>
              th == DEFAULT_ERASER_PADDING * 1.2
  {
    if overlay.Some? && overlay.value.width != 0.0 && overlay.value.height != 0.0 then
      var reference := Max(Min(overlay.value.width, overlay.value.height), 1.0);
      var normalizedWidth := (if strokeWidth != 0.0 then strokeWidth else DEFAULT_BRUSH_SIZE) / reference;
      Max(normalizedWidth * 1.4, DEFAULT_ERASER_PADDING)
    else
      DEFAULT_ERASER_PADDING * 1.2
  }

  /** Segment `i` (from point i-1 to point i) of the stroke passes within `th` of `p`. */
  predicate SegmentWithin(points: seq<Point>, i: int, p: Point, th: real)
    requires 1 <= i < |points|
  {
    DistanceSqPointToSegment(Some(p), Some(points[i - 1]), Some(points[i])).AtMost(th * th)
  }

  /** `doesFreehandStrokeHitPoint` as a property: at least two points and some segment within the threshold. */
  predicate FreehandHits(a: Annotation, p: Point, overlay: Option<Dimensions>)
  {
    |a.points| >= 2 &&
    var th := NormalizedStrokeThreshold(a.strokeWidth, overlay);
    exists i :: 1 <= i < |a.points| && SegmentWithin(a.points, i, p, th)
  }

  /** `doesFreehandStrokeHitPoint`: scan the segments, stopping at the first one within reach. */
  method DoesFreehandStrokeHitPoint(a: Annotation, p: Point, overlay: Option<Dimensions>) returns (hit: bool)
    ensures hit == FreehandHits(a, p, overlay)
  {
    var points := a.points;
    if |points| < 2 {
      return false;
    }
    var threshold := NormalizedStrokeThreshold(a.strokeWidth, overlay);
    var i := 1;
    while i < |points|
      invariant 1 <= i <= |points|
      invariant forall j :: 1 <= j < i ==> !SegmentWithin(points, j, p, threshold)
    {
      if SegmentWithin(points, i, p, threshold) {
        return true;
      }
      i := i + 1;
    }
    return false;
  }

  /** `doesLineHitPoint`: within the threshold of a half-default-brush stroke. */
  predicate LineHits(line: Line, p: Point, overlay: Option<Dimensions>)
  {
    var th := NormalizedStrokeThreshold(DEFAULT_BRUSH_SIZE / 2.0, overlay);
    DistanceSqPointToSegment(Some(p), Some(Point(line.x1, line.y1)), Some(Point(line.x2, line.y2))).AtMost(th * th)
  }

  /** The highlight part of `doesAnnotationHitPoint`: inside a padded rect or the padded position. */
  predicate HighlightHits(a: Annotation, p: Point)
  {
    (a.rects.Some? &&
       exists i :: 0 <= i < |a.rects.value| &&
         PointWithinBox(Some(p), Some(RectBox(a.rects.value[i])), DEFAULT_ERASER_PADDING))
    || (a.position.Some? && PointWithinBox(Some(p), a.position, DEFAULT_ERASER_PADDING))
  }

  /** `doesAnnotationHitPoint` as a property. */
  predicate AnnotationHits(a: Annotation, p: Point, overlay: Option<Dimensions>)
  {
    if a.kind !in ERASER_TARGET_TYPES then false
    else if a.kind == "highlight" then HighlightHits(a, p)
    else if (a.kind == "underline" || a.kind == "strike") && |a.lines| > 0 then
      exists i :: 0 <= i < |a.lines| && LineHits(a.lines[i], p, overlay)
    else if a.kind == "freehand" then FreehandHits(a, p, overlay)
    else false
  }

  /** `doesAnnotationHitPoint`. */
  method DoesAnnotationHitPoint(a: Annotation, p: Point, overlay: Option<Dimensions>) returns (hit: bool)
    ensures hit == AnnotationHits(a, p, overlay)
  {
    if a.kind !in ERASER_TARGET_TYPES {
      return false;
    }
    if a.kind == "highlight" {
      return HighlightHits(a, p);
    }
    if (a.kind == "underline" || a.kind == "strike") && |a.lines| > 0 {
      return exists i :: 0 <= i < |a.lines| && LineHits(a.lines[i], p, overlay);
    }
    if a.kind == "freehand" {
      hit := DoesFreehandStrokeHitPoint(a, p, overlay);
      return;
    }
    return false;
  }

  /** Only highlights, lines and freehand strokes can be erased; notes never are. */
  lemma OnlyTargetTypesHit(a: Annotation, p: Point, overlay: Option<Dimensions>)
    requires AnnotationHits(a, p, overlay)
    ensures a.kind in ERASER_TARGET_TYPES && a.kind != "comment"
  {
  }

  /** A highlight is hit exactly inside one of its padded boxes. */
  lemma HighlightHitInsidePaddedBox(a: Annotation, p: Point, overlay: Option<Dimensions>)
    requires a.kind == "highlight"
    ensures AnnotationHits(a, p, overlay) <==> HighlightHits(a, p)
  {
  }

  /** A stroke with fewer than two points is never hit. */
  lemma ShortStrokeNeverHit(a: Annotation, p: Point, overlay: Option<Dimensions>)
    requires a.kind == "freehand" && |a.points| < 2
    ensures !AnnotationHits(a, p, overlay)
  {
  }

  /** Touching any vertex of a stroke of two or more points erases it. */
  lemma {:induction false} StrokeHitAtVertex(a: Annotation, k: int, overlay: Option<Dimensions>)
    requires a.kind == "freehand" && |a.points| >= 2 && 0 <= k < |a.points|
    ensures AnnotationHits(a, a.points[k], overlay)
  {
    var th := NormalizedStrokeThreshold(a.strokeWidth, overlay);
    var i := if k == 0 then 1 else k;
    SegmentDistSqAtEndpoints(a.points[i - 1], a.points[i]);
    ThresholdSquarePositive(th);
    assert SegmentWithin(a.points, i, a.points[k], th);
  }

  /** Touching either end of an underline or strike-through line erases it. */
  lemma LineHitAtEnds(line: Line, overlay: Option<Dimensions>)
    ensures LineHits(line, Point(line.x1, line.y1), overlay)
    ensures LineHits(line, Point(line.x2, line.y2), overlay)
  {
    var th := NormalizedStrokeThreshold(DEFAULT_BRUSH_SIZE / 2.0, overlay);
    SegmentDistSqAtEndpoints(Point(line.x1, line.y1), Point(line.x2, line.y2));
    ThresholdSquarePositive(th);
  }

  lemma ThresholdSquarePositive(th: real)
    requires th >= DEFAULT_ERASER_PADDING
    ensures th * th > 0.0
  {
    assert th > 0.0;
    assert th * th >= th * DEFAULT_ERASER_PADDING;
  }
}
