/**
 * The freehand surface laid over the whole workspace pane: strokes drawn with
 * the freehand tool in coordinates normalised to the layer (0..1), and an
 * eraser that removes every stroke passing near the pointer. The pointer
 * position is handed over already normalised against the layer's box; the
 * stroke id and creation time come from the clock and are passed in.
 */
module FreehandLayer {
  import opened Wrappers
  import opened WorkspaceTypes
  import opened WorkspaceUtils
  import opened HitTest

  /** The side of the SVG view box the normalised coordinates are scaled to. */
  const VIEWBOX_SIZE: real := 1000.0

  /** A stroke on the workspace layer. */
  datatype Stroke = Stroke(id: string, points: seq<Point>, color: string, strokeWidth: real, opacity: real)

  /** The gesture in progress: none, an eraser drag, or a freehand stroke being drawn. */
  datatype LayerGesture =
    | LayerIdle
    | LayerErasing
    | LayerDrawing(points: seq<Point>, straight: bool, brushSize: real, pressureEnabled: bool, pressure: real, opacity: real)

  // ---------------------------------------------------------------- hit test

  /** `getStrokeThresholdSq`: at least a 4-pixel stroke (8 when unset), 1.5 widths of reach, never below 0.01; squared. */
  function ThresholdSq(strokeWidth: real): (r: real)
    ensures r == Threshold(strokeWidth) * Threshold(strokeWidth)
    ensures r >= 0.01 * 0.01
  {
    var t := Threshold(strokeWidth);
    MulMono(0.01, t);
    t * t
  }

  function Threshold(strokeWidth: real): (t: real)
    ensures t >= 0.01
    ensures t >= Max(if strokeWidth != 0.0 then strokeWidth else 8.0, 4.0) / VIEWBOX_SIZE * 1.5
  {
    var width := Max(if strokeWidth != 0.0 then strokeWidth else 8.0, 4.0);
    Max(width / VIEWBOX_SIZE * 1.5, 0.01)
  }

  lemma MulMono(a: real, b: real)
    requires 0.0 <= a <= b
    ensures a * a <= b * b
  {
    assert b * b - a * a == (b - a) * (b + a);
  }

  /** A wider stroke is never harder to hit. */
  lemma ThresholdGrowsWithWidth(w1: real, w2: real)
    requires 0.0 < w1 <= w2
    ensures ThresholdSq(w1) <= ThresholdSq(w2)
  {
    var a, b := Max(w1, 4.0) / VIEWBOX_SIZE * 1.5, Max(w2, 4.0) / VIEWBOX_SIZE * 1.5;
    assert a <= b;
    MulMono(Threshold(w1), Threshold(w2));
  }

  /** Segment `i` (points i-1 to i) passes within the stroke's reach of `p`. */
  predicate SegmentNear(s: Stroke, i: int, p: Point)
    requires 1 <= i < |s.points|
  {
    SegmentDistSq(p, s.points[i - 1], s.points[i]) <= ThresholdSq(s.strokeWidth)
  }

  /** `doesStrokeHitPoint` as a property: two points or more, and some segment within reach. */
  predicate StrokeHits(s: Stroke, p: Point)
  {
    |s.points| >= 2 && exists i :: 1 <= i < |s.points| && SegmentNear(s, i, p)
  }

  /** `doesStrokeHitPoint`: scan the segments, stopping at the first within reach. */
  method DoesStrokeHitPoint(s: Stroke, p: Point) returns (hit: bool)
    ensures hit <==> StrokeHits(s, p)
    ensures |s.points| < 2 ==> !hit
  {
    if |s.points| < 2 {
      return false;
    }
    var i := 1;
    while i < |s.points|
      invariant 1 <= i <= |s.points|
      invariant forall j :: 1 <= j < i ==> !SegmentNear(s, j, p)
    {
      if SegmentNear(s, i, p) {
        return true;
      }
      i := i + 1;
    }
    return false;
  }

  /** A stroke of two points or more is hit at each of its own points. */
  lemma StrokeHitAtItsPoints(s: Stroke, k: int)
    requires |s.points| >= 2 && 0 <= k < |s.points|
    ensures StrokeHits(s, s.points[k])
  {
    if k == 0 {
      SegmentDistSqAtEndpoints(s.points[0], s.points[1]);
      assert SegmentNear(s, 1, s.points[k]);
    } else {
      SegmentDistSqAtEndpoints(s.points[k - 1], s.points[k]);
      assert SegmentNear(s, k, s.points[k]);
    }
  }

  // ---------------------------------------------------------------- eraser

  /** The strokes that survive an eraser touch at `p`, in their order. */
  function Unhit(strokes: seq<Stroke>, p: Point): (r: seq<Stroke>)
    ensures |r| <= |strokes|
    ensures forall s :: s in r <==> s in strokes && !StrokeHits(s, p)
  {
    if |strokes| == 0 then []
    else
      var init := strokes[..|strokes| - 1];
      var last := strokes[|strokes| - 1];
      assert forall s :: s in strokes <==> s in init || s == last by {
        assert strokes == init + [last];
      }
      Unhit(init, p) + (if StrokeHits(last, p) then [] else [last])
  }

  /** Erasing twice at the same place removes nothing more. */
  lemma {:induction false} UnhitIdempotent(strokes: seq<Stroke>, p: Point)
    ensures Unhit(Unhit(strokes, p), p) == Unhit(strokes, p)
  {
    if |strokes| > 0 {
      var init := strokes[..|strokes| - 1];
      var last := strokes[|strokes| - 1];
      UnhitIdempotent(init, p);
      UnhitAppend(Unhit(init, p), if StrokeHits(last, p) then [] else [last], p);
    }
  }

  lemma {:induction false} UnhitAppend(a: seq<Stroke>, b: seq<Stroke>, p: Point)
    requires |b| <= 1 && forall s :: s in b ==> !StrokeHits(s, p)
    ensures Unhit(a + b, p) == Unhit(a, p) + b
  {
    if |b| == 1 {
      assert (a + b)[..|a + b| - 1] == a;
    } else {
      assert a + b == a;
    }
  }

  /** One more stroke scanned: it survives exactly when it is not hit. */
  lemma UnhitPrefix(strokes: seq<Stroke>, i: nat, p: Point)
    requires i < |strokes|
    ensures Unhit(strokes[..i + 1], p) == Unhit(strokes[..i], p) + (if StrokeHits(strokes[i], p) then [] else [strokes[i]])
  {
    assert strokes[..i + 1][..i] == strokes[..i];
    assert strokes[..i + 1][i] == strokes[i];
  }

  /** `eraseStrokesNearPoint`: keep the strokes the pointer does not touch, scanning each with `doesStrokeHitPoint`. */
  method EraseNear(strokes: seq<Stroke>, p: Point) returns (kept: seq<Stroke>)
    ensures kept == Unhit(strokes, p)
  {
    kept := [];
    var i: nat := 0;
    while i < |strokes|
      invariant i <= |strokes|
      invariant kept == Unhit(strokes[..i], p)
    {
      var hit := DoesStrokeHitPoint(strokes[i], p);
      UnhitPrefix(strokes, i, p);
      if !hit {
        kept := kept + [strokes[i]];
      }
      i := i + 1;
    }
    assert strokes[..i] == strokes;
  }

  // ---------------------------------------------------------------- drawing

  /** The width a gesture draws at: its brush size (else the active size, else 10) times the pressure when enabled (`|| 1`). */
  function GestureWidth(g: LayerGesture, activeBrushSize: real): (w: real)
    requires g.LayerDrawing?
  {
    var base := if g.brushSize != 0.0 then g.brushSize else if activeBrushSize != 0.0 then activeBrushSize else 10.0;
    base * (if g.pressureEnabled then (if g.pressure != 0.0 then g.pressure else 1.0) else 1.0)
  }

  /** The points a gesture ends with: anchor and end for a straight line, the trail plus the end otherwise. */
  function MergedPoints(g: LayerGesture, end: Point): (r: seq<Point>)
    requires g.LayerDrawing?
    ensures |g.points| >= 1 ==> |r| >= 2
    ensures g.straight ==> |r| == 2 && r[1] == end
    ensures !g.straight ==> r == g.points + [end]
  {
    if g.straight then [if |g.points| > 0 then g.points[0] else end, end]
    else g.points + [end]
  }

  /** The `WorkspaceFreehandLayer` component's state. */
  class Layer {
    var strokes: seq<Stroke>
    var gesture: LayerGesture

    /** A freehand gesture has its first point; a straight one exactly anchor and end. */
    ghost predicate Valid()
      reads this
    {
      gesture.LayerDrawing? ==> |gesture.points| >= 1 && (gesture.straight ==> |gesture.points| == 2)
    }

    constructor ()
      ensures Valid() && strokes == [] && gesture == LayerIdle
    {
      strokes := [];
      gesture := LayerIdle;
    }

    /**
     * `handlePointerDown`: only the freehand tool and the eraser react, and
     * only with the layer mounted. The eraser erases under the pointer and
     * starts an eraser drag; the freehand tool starts a stroke at the pointer,
     * doubled as anchor and live end in straight mode.
     */
    method PointerDown(activeTool: string, eraserToolId: string, mounted: bool, p: Point, straight: bool,
                       activeBrushSize: real, pressureEnabled: bool, reading: Option<real>, activeBrushOpacity: Option<real>)
      requires Valid()
      modifies this
      ensures Valid()
      ensures (activeTool != "freehand" && activeTool != eraserToolId) || !mounted ==>
                strokes == old(strokes) && gesture == old(gesture)
      ensures mounted && activeTool == eraserToolId ==> strokes == Unhit(old(strokes), p) && gesture == LayerErasing
      ensures mounted && activeTool == "freehand" && activeTool != eraserToolId ==>
                strokes == old(strokes) &&
                gesture == LayerDrawing(if straight then [p, p] else [p], straight,
                                   if activeBrushSize != 0.0 then activeBrushSize else 10.0,
                                   pressureEnabled, PointerPressure(pressureEnabled, reading),
                                   OrElse(activeBrushOpacity, 1.0))
    {
      var isFreehand := activeTool == "freehand";
      var isEraser := activeTool == eraserToolId;
      if (!isFreehand && !isEraser) || !mounted {
        return;
      }
      if isEraser {
        strokes := EraseNear(strokes, p);
        gesture := LayerErasing;
        return;
      }
      var baseSize := if activeBrushSize != 0.0 then activeBrushSize else 10.0;
      gesture := LayerDrawing(if straight then [p, p] else [p], straight, baseSize, pressureEnabled,
                         PointerPressure(pressureEnabled, reading), OrElse(activeBrushOpacity, 1.0));
    }

    /**
     * `handlePointerMove`: an eraser drag erases under the pointer; a stroke
     * moves its live end (straight) or extends its trail, taking the new
     * pressure reading.
     */
    method PointerMove(mounted: bool, p: Point, reading: Option<real>)
      requires Valid()
      modifies this
      ensures Valid()
      ensures !mounted || gesture.LayerIdle? ==> strokes == old(strokes) && gesture == old(gesture)
      ensures mounted && old(gesture).LayerErasing? ==> strokes == Unhit(old(strokes), p) && gesture == LayerErasing
      ensures mounted && old(gesture).LayerDrawing? ==>
                strokes == old(strokes) &&
                gesture == old(gesture).(points := MergedPoints(old(gesture), p),
                                         pressure := PointerPressure(old(gesture).pressureEnabled, reading))
    {
      if gesture.LayerIdle? || !mounted {
        return;
      }
      if gesture.LayerErasing? {
        strokes := EraseNear(strokes, p);
        return;
      }
      gesture := gesture.(points := MergedPoints(gesture, p), pressure := PointerPressure(gesture.pressureEnabled, reading));
    }

    /**
     * `handlePointerUp`: the gesture ends. An eraser drag erases once more
     * under the pointer; a stroke is added with its merged points, its width
     * from brush size and pressure, its opacity and the active colour.
     */
    method PointerUp(mounted: bool, p: Point, activeBrushSize: real, activeColor: string, strokeId: string)
      requires Valid()
      modifies this
      ensures Valid() && gesture == LayerIdle
      ensures !mounted || old(gesture).LayerIdle? ==> strokes == old(strokes)
      ensures mounted && old(gesture).LayerErasing? ==> strokes == Unhit(old(strokes), p)
      ensures mounted && old(gesture).LayerDrawing? ==>
                var g := old(gesture);
                strokes == old(strokes) + [Stroke(strokeId, MergedPoints(g, p), activeColor, GestureWidth(g, activeBrushSize), g.opacity)]
    {
      if gesture.LayerIdle? || !mounted {
        gesture := LayerIdle;
        return;
      }
      if gesture.LayerErasing? {
        strokes := EraseNear(strokes, p);
        gesture := LayerIdle;
        return;
      }
      var merged := MergedPoints(gesture, p);
      var width := GestureWidth(gesture, activeBrushSize);
      strokes := strokes + [Stroke(strokeId, merged, activeColor, width, gesture.opacity)];
      gesture := LayerIdle;
    }
  }

  /** Every stroke the layer adds has two points or more, so the eraser can reach it at its end point. */
  lemma FinishedStrokeErasable(g: LayerGesture, p: Point, strokes: seq<Stroke>, id: string, color: string, activeBrushSize: real)
    requires g.LayerDrawing? && |g.points| >= 1
    ensures var s := Stroke(id, MergedPoints(g, p), color, GestureWidth(g, activeBrushSize), g.opacity);
            s !in Unhit(strokes + [s], p)
  {
    var s := Stroke(id, MergedPoints(g, p), color, GestureWidth(g, activeBrushSize), g.opacity);
    StrokeHitAtItsPoints(s, |s.points| - 1);
  }
}
