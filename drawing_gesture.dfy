/**
 * The drawing gestures of the document overlay: what pointer-down starts for
 * the highlight, freehand and clip tools, how each pointer move changes the
 * gesture, and what pointer-up makes of it (`finalizeDrawing`). Also the
 * records the pointer handlers create directly: bookmarks, page notes, and the
 * underline, strike-through and text-highlight annotations built from a text
 * selection (`applyLineAnnotation`).
 */
module DrawingGesture {
  import opened Wrappers
  import opened JsText
  import opened WorkspaceTypes
  import opened WorkspaceUtils

  /** A drag smaller than this in either direction creates nothing. */
  const MIN_DRAG_SIZE: real := 0.01

  predicate IsDrawingTool(tool: string) { tool == "highlight" || tool == "freehand" || tool == "clip" }

  /** The brush settings pointer-down copies into a freehand gesture. */
  datatype Brush = Brush(size: real, mode: string, pressureEnabled: bool, opacity: real)

  /** One pointer move: the normalised position and the raw pressure reading (`None` when not a number). */
  datatype Move = Move(p: Point, reading: Option<real>)

  /** The gesture pointer-down starts for a drawing tool on a page overlay. */
  function StartGesture(tool: string, page: int, key: string, p: Point, brush: Brush, reading: Option<real>): (s: DrawingState)
    requires IsDrawingTool(tool)
    ensures s.page == page && s.overlayKey == key
    ensures s.FreehandDrag? <==> tool == "freehand"
  {
    if tool == "freehand" then
      FreehandDrag(page, key, if brush.mode == "straight" then [p, p] else [p], brush.size, brush.mode,
                   brush.pressureEnabled, PointerPressure(brush.pressureEnabled, reading), brush.opacity, None)
    else
      AreaDrag(tool, page, key, p, None)
  }

  /** The drawing-state update of one pointer move on the gesture's page. */
  function MoveGesture(s: DrawingState, m: Move): (r: DrawingState)
    ensures r.page == s.page && r.overlayKey == s.overlayKey
    ensures r.FreehandDrag? == s.FreehandDrag? && r.AreaDrag? == s.AreaDrag?
    ensures s.FreehandDrag? ==> r.mode == s.mode && r.brushSize == s.brushSize && r.pressureEnabled == s.pressureEnabled
  {
    match s
    case FreehandDrag(page, key, points, size, mode, enabled, _, opacity, _) =>
      var pressure := PointerPressure(enabled, m.reading);
      var anchor := if |points| > 0 then points[0] else m.p;
      var next := if mode == "straight" then [anchor, m.p] else points + [m.p];
      FreehandDrag(page, key, next, size, mode, enabled, pressure, opacity, Some(m.p))
    case AreaDrag(tool, page, key, start, _) => AreaDrag(tool, page, key, start, Some(m.p))
    case Erasing(_, _) => s
  }

  /** The gesture after a run of pointer moves. */
  function Replay(s: DrawingState, moves: seq<Move>): (r: DrawingState)
    ensures r.page == s.page && r.overlayKey == s.overlayKey
    ensures r.FreehandDrag? == s.FreehandDrag? && r.AreaDrag? == s.AreaDrag?
    ensures s.FreehandDrag? ==> r.mode == s.mode && r.brushSize == s.brushSize && r.pressureEnabled == s.pressureEnabled
    decreases |moves|
  {
    if |moves| == 0 then s else Replay(MoveGesture(s, moves[0]), moves[1..])
  }

  function Positions(moves: seq<Move>): (ps: seq<Point>)
    ensures |ps| == |moves| && forall i :: 0 <= i < |moves| ==> ps[i] == moves[i].p
  {
    seq(|moves|, i requires 0 <= i < |moves| => moves[i].p)
  }

  lemma PositionsCons(moves: seq<Move>)
    requires |moves| > 0
    ensures Positions(moves) == [moves[0].p] + Positions(moves[1..])
  {
    assert forall i :: 0 <= i < |moves| - 1 ==> Positions(moves[1..])[i] == moves[i + 1].p;
  }

  /** A straight stroke holds two points, a free stroke at least one. */
  predicate StrokeShape(s: DrawingState)
  {
    s.FreehandDrag? ==> |s.points| >= 1 && (s.mode == "straight" ==> |s.points| == 2)
  }

  /** Pointer-down seeds `[p, p]` in straight mode and `[p]` otherwise. */
  lemma FreehandStartSeeds(page: int, key: string, p: Point, brush: Brush, reading: Option<real>)
    ensures var s := StartGesture("freehand", page, key, p, brush, reading);
            s.FreehandDrag? && StrokeShape(s) && s.points[0] == p &&
            (brush.mode == "straight" ==> s.points == [p, p]) &&
            (brush.mode != "straight" ==> s.points == [p])
  {
  }

  /** In free mode every move appends exactly its position: the stroke is the pointer trail. */
  lemma {:induction false} FreeStrokeIsTrail(s: DrawingState, moves: seq<Move>)
    requires s.FreehandDrag? && s.mode != "straight"
    ensures var r := Replay(s, moves);
            r.FreehandDrag? && r.mode == s.mode && r.points == s.points + Positions(moves)
    decreases |moves|
  {
    if |moves| > 0 {
      var t := MoveGesture(s, moves[0]);
      assert Replay(s, moves) == Replay(t, moves[1..]);
      FreeStrokeIsTrail(t, moves[1..]);
      assert t.points == s.points + [moves[0].p];
      PositionsCons(moves);
      assert s.points + Positions(moves) == (s.points + [moves[0].p]) + Positions(moves[1..]);
    } else {
      assert s.points + Positions(moves) == s.points;
    }
  }

  /** In straight mode every move keeps exactly two points: the fixed anchor and the latest position. */
  lemma {:induction false} StraightStrokeKeepsAnchor(s: DrawingState, moves: seq<Move>)
    requires s.FreehandDrag? && s.mode == "straight" && |s.points| >= 1 && |moves| > 0
    ensures var r := Replay(s, moves);
            r.FreehandDrag? && r.mode == s.mode && r.points == [s.points[0], moves[|moves| - 1].p]
    decreases |moves|
  {
    var t := MoveGesture(s, moves[0]);
    assert t.points == [s.points[0], moves[0].p];
    if |moves| > 1 {
      StraightStrokeKeepsAnchor(t, moves[1..]);
    }
  }

  /** Moves keep the stroke shape. */
  lemma {:induction false} MovesKeepStrokeShape(s: DrawingState, moves: seq<Move>)
    requires StrokeShape(s)
    ensures StrokeShape(Replay(s, moves))
    decreases |moves|
  {
    if |moves| > 0 {
      var t := MoveGesture(s, moves[0]);
      assert StrokeShape(t);
      MovesKeepStrokeShape(t, moves[1..]);
    }
  }

  // ---------------------------------------------------------------- finalising

  /** What pointer-up makes of a gesture. */
  datatype Outcome =
    | Discard                               // nothing is created
    | ExtractClip(rect: Rect, page: int)    // a clipping is cut out of this area
    | Commit(annotation: Annotation)        // this annotation is added

  /** The area between the drag's start and end, or `None` when it is under 0.01 in either direction. */
  function DragRect(start: Point, end: Point): (r: Option<Rect>)
    ensures r.None? <==> Abs(end.x - start.x) < MIN_DRAG_SIZE || Abs(end.y - start.y) < MIN_DRAG_SIZE
  {
    var w, h := Abs(end.x - start.x), Abs(end.y - start.y);
    if w < MIN_DRAG_SIZE || h < MIN_DRAG_SIZE then None
    else Some(Rect(Min(start.x, end.x), Min(start.y, end.y), w, h))
  }

  function AreaHighlight(id: string, page: int, color: string, r: Rect): Annotation
  {
    Annotation(id, "highlight", page, color, "area", Some(Box(r.x, r.y, Some(r.width), Some(r.height))),
               None, [], [], 0.0, 0.0, "", false, 0.0, 0.0, "", None, false)
  }

  /** The points a freehand gesture commits: anchor and end in straight mode, the trail and end otherwise. */
  function MergedPoints(s: DrawingState, end: Point): seq<Point>
    requires s.FreehandDrag?
  {
    if s.mode == "straight" then s.points[..if |s.points| > 0 then 1 else 0] + [end]
    else s.points + [end]
  }

  /** `brushSize || activeBrushSize || DEFAULT_BRUSH_SIZE` */
  function BaseSize(gestureSize: real, activeBrushSize: real): (b: real)
    ensures gestureSize > 0.0 && activeBrushSize > 0.0 ==> b > 0.0
  {
    if gestureSize != 0.0 then gestureSize else if activeBrushSize != 0.0 then activeBrushSize else DEFAULT_BRUSH_SIZE
  }

  /** `pressureEnabled ? (pressure || 1) : 1` */
  function PressureFactor(enabled: bool, pressure: real): real
  {
    if enabled then (if pressure != 0.0 then pressure else 1.0) else 1.0
  }

  function FreehandStroke(s: DrawingState, merged: seq<Point>, id: string, color: string, activeBrushSize: real): Annotation
    requires s.FreehandDrag?
  {
    var base := BaseSize(s.brushSize, activeBrushSize);
    var factor := PressureFactor(s.pressureEnabled, s.pressure);
    Annotation(id, "freehand", s.page, color, "", None, None, [], merged, base * factor, base,
               if s.mode != "" then s.mode else "freehand", s.pressureEnabled, factor, s.opacity, "", None, false)
  }

  /** `finalizeDrawing` for the gesture `s` released at `end`. */
  function Finalize(s: DrawingState, end: Point, id: string, color: string, activeBrushSize: real): Outcome
  {
    match s
    case AreaDrag(tool, page, _, start, _) =>
      if tool != "clip" && tool != "highlight" then Discard
      else
        var r := DragRect(start, end);
        if r.None? then Discard
        else if tool == "clip" then ExtractClip(r.value, page)
        else Commit(AreaHighlight(id, page, color, r.value))
    case FreehandDrag(_, _, _, _, _, _, _, _, _) =>
      var merged := MergedPoints(s, end);
      if |merged| < 2 then Discard else Commit(FreehandStroke(s, merged, id, color, activeBrushSize))
    case Erasing(_, _) => Discard
  }

  /**
   * A highlight or clip drag creates nothing exactly when it is under 0.01 in
   * either direction; otherwise its area runs from the smaller to the larger
   * coordinate of start and end, so it covers both points.
   */
  lemma AreaDragOutcome(s: DrawingState, end: Point, id: string, color: string, activeBrushSize: real)
    requires s.AreaDrag? && (s.tool == "highlight" || s.tool == "clip")
    ensures var o := Finalize(s, end, id, color, activeBrushSize);
            (o.Discard? <==> Abs(end.x - s.start.x) < MIN_DRAG_SIZE || Abs(end.y - s.start.y) < MIN_DRAG_SIZE)
    ensures var o := Finalize(s, end, id, color, activeBrushSize);
            !o.Discard? ==>
              var r := if o.ExtractClip? then o.rect else RectOf(o.annotation.position.value);
              r.width >= MIN_DRAG_SIZE && r.height >= MIN_DRAG_SIZE &&
              r.x == Min(s.start.x, end.x) && r.x + r.width == Max(s.start.x, end.x) &&
              r.y == Min(s.start.y, end.y) && r.y + r.height == Max(s.start.y, end.y) &&
              Covers(r, s.start) && Covers(r, end)
  {
  }

  function RectOf(b: Box): Rect { Rect(b.x, b.y, OrElse(b.width, 0.0), OrElse(b.height, 0.0)) }

  /** A clip drag never adds an annotation, and a highlight drag never cuts out a clipping. */
  lemma ClipNeverCommits(s: DrawingState, end: Point, id: string, color: string, activeBrushSize: real)
    requires s.AreaDrag?
    ensures var o := Finalize(s, end, id, color, activeBrushSize);
            (s.tool == "clip" ==> !o.Commit?) && (o.ExtractClip? ==> s.tool == "clip" && o.page == s.page)
  {
  }

  /**
   * A committed stroke has at least two points, its width is the base brush size
   * times the pressure factor, the factor is 1 when pressure is off, and with
   * pressure on it is the last reading, clamped to [0.25, 1.35].
   */
  lemma StrokeWidthOfCommit(s: DrawingState, end: Point, id: string, color: string, activeBrushSize: real)
    requires s.FreehandDrag? && MIN_PRESSURE <= s.pressure <= MAX_PRESSURE
    requires Finalize(s, end, id, color, activeBrushSize).Commit?
    ensures var a := Finalize(s, end, id, color, activeBrushSize).annotation;
            a.kind == "freehand" && a.pageNumber == s.page && |a.points| >= 2 &&
            a.strokeWidth == a.brushSize * a.pressureFactor &&
            (!s.pressureEnabled ==> a.pressureFactor == 1.0 && a.strokeWidth == a.brushSize) &&
            (s.pressureEnabled ==> a.pressureFactor == s.pressure) &&
            MIN_PRESSURE <= a.pressureFactor <= MAX_PRESSURE
  {
  }

  /** The gesture's pressure always lies in [0.25, 1.35], so does every stroke's pressure factor. */
  lemma MovesKeepPressureRange(s: DrawingState, moves: seq<Move>)
    requires s.FreehandDrag? && MIN_PRESSURE <= s.pressure <= MAX_PRESSURE
    ensures var r := Replay(s, moves); r.FreehandDrag? && MIN_PRESSURE <= r.pressure <= MAX_PRESSURE
    decreases |moves|
  {
    if |moves| > 0 {
      MovesKeepPressureRange(MoveGesture(s, moves[0]), moves[1..]);
    }
  }

  /**
   * A whole freehand gesture: pointer-down at `p0`, the moves, pointer-up at
   * `end`. Straight mode commits `[p0, end]`; free mode commits `p0`, the trail
   * and `end`.
   */
  lemma FreehandGestureCommits(page: int, key: string, p0: Point, brush: Brush, reading: Option<real>,
                               moves: seq<Move>, end: Point, id: string, color: string, activeBrushSize: real)
    ensures var s := Replay(StartGesture("freehand", page, key, p0, brush, reading), moves);
            var o := Finalize(s, end, id, color, activeBrushSize);
            o.Commit? && o.annotation.pageNumber == page &&
            o.annotation.points == (if brush.mode == "straight" then [p0, end] else [p0] + Positions(moves) + [end])
  {
    var s0 := StartGesture("freehand", page, key, p0, brush, reading);
    var s := Replay(s0, moves);
    if brush.mode == "straight" {
      if |moves| > 0 {
        StraightStrokeKeepsAnchor(s0, moves);
      }
      assert s.points[0] == p0 && |s.points| >= 1;
      assert s.points[..1] == [p0];
      assert MergedPoints(s, end) == [p0, end];
    } else {
      FreeStrokeIsTrail(s0, moves);
      assert MergedPoints(s, end) == [p0] + Positions(moves) + [end];
    }
  }

  // ---------------------------------------------------------------- bookmarks and notes

  /** `addBookmark`: the position clamped to [0.05, 0.95] x [0.1, 0.9]; the trimmed answer as note, none when blank or cancelled. */
  function NewBookmark(id: string, page: int, p: Point, color: string, answer: Option<string>): (b: Bookmark)
    ensures 0.05 <= b.position.x <= 0.95 && 0.1 <= b.position.y <= 0.9
    ensures InUnitSquare(p) && 0.05 <= p.x <= 0.95 && 0.1 <= p.y <= 0.9 ==> b.position == p
    ensures b.note.None? <==> answer.None? || AllSpace(answer.value)
    ensures b.note.Some? ==> b.note.value == Trim(answer.value) && b.note.value != ""
  {
    var note := if answer.Some? && Trim(answer.value) != "" then Some(Trim(answer.value)) else None;
    Bookmark(id, page, Point(Clamp(p.x, 0.05, 0.95), Clamp(p.y, 0.1, 0.9)), color, note)
  }

  /** A pointer-down note: placed at `(x, y)` clamped to [0.05, 0.95], with no size. */
  function PageNote(id: string, page: int, color: string, content: string, linkedText: string, x: real, y: real): (a: Annotation)
    ensures a.kind == "comment" && a.position.Some? && a.position.value.width.None? && a.position.value.height.None?
    ensures 0.05 <= a.position.value.x <= 0.95 && 0.05 <= a.position.value.y <= 0.95
    ensures a.linkedText.None? <==> linkedText == ""
  {
    Annotation(id, "comment", page, color, "", Some(Box(Clamp(x, 0.05, 0.95), Clamp(y, 0.05, 0.95), None, None)),
               None, [], [], 0.0, 0.0, "", false, 0.0, 0.0, content, if linkedText != "" then Some(linkedText) else None, false)
  }

  /** The stored text selection: its text, its page (0 when none) and whether a DOM range is held. */
  datatype TextSelection = TextSelection(text: string, pageNumber: int, hasRange: bool)

  predicate HasSelection(sel: TextSelection) { sel.text != "" && sel.hasRange && sel.pageNumber != 0 }

  const NO_SELECTION: TextSelection := TextSelection("", 0, false)

  /**
   * Where the comment tool puts its note: on the selection's page at the centre
   * of the selection's first rectangle (`centre`, already normalised; `None`
   * when that rectangle or its page overlay is missing), linked to the selected
   * text; otherwise at the pointer on the clicked page, unlinked.
   */
  function NotePlacement(sel: TextSelection, centre: Option<Point>, page: int, p: Point): (r: (int, Point, string))
    ensures HasSelection(sel) ==> r.0 == sel.pageNumber
    ensures !HasSelection(sel) ==> r.0 == page
    ensures r.2 != "" <==> HasSelection(sel) && centre.Some?
    ensures r.2 != "" ==> r.1 == centre.value && r.2 == sel.text
    ensures r.2 == "" ==> r.1 == p
  {
    var target := if HasSelection(sel) then sel.pageNumber else page;
    if HasSelection(sel) && centre.Some? then (target, centre.value, sel.text) else (target, p, "")
  }

  // ---------------------------------------------------------------- text annotations

  /** `getClientRects()` keeps only rectangles at least 2 pixels wide and high. */
  function Measurable(rects: seq<ClientRect>): (r: seq<ClientRect>)
    ensures forall i :: 0 <= i < |r| ==> r[i].width >= 2.0 && r[i].height >= 2.0
    ensures forall i :: 0 <= i < |rects| && rects[i].width >= 2.0 && rects[i].height >= 2.0 ==> rects[i] in r
    ensures forall x :: x in r ==> x in rects
  {
    if |rects| == 0 then []
    else
      var rest := Measurable(rects[1..]);
      assert forall i :: 1 <= i < |rects| ==> rects[i] == rects[1..][i - 1];
      if rects[0].width >= 2.0 && rects[0].height >= 2.0 then [rects[0]] + rest else rest
  }

  /** A client rectangle as a fraction of the overlay. */
  function RelativeRect(r: ClientRect, canvas: ClientRect): Rect
    requires canvas.width != 0.0 && canvas.height != 0.0
  {
    Rect((r.left - canvas.left) / canvas.width, (r.top - canvas.top) / canvas.height, r.width / canvas.width, r.height / canvas.height)
  }

  function RelativeRects(rects: seq<ClientRect>, canvas: ClientRect): (r: seq<Rect>)
    requires canvas.width != 0.0 && canvas.height != 0.0
    ensures |r| == |rects| && forall i :: 0 <= i < |rects| ==> r[i] == RelativeRect(rects[i], canvas)
  {
    seq(|rects|, i requires 0 <= i < |rects| => RelativeRect(rects[i], canvas))
  }

  /** An underline sits at 90% of the rectangle's height, a strike-through at its middle; both span its width. */
  function RectLine(kind: string, r: Rect): (line: Line)
    ensures line.y1 == line.y2 && line.x1 == r.x && line.x2 == r.x + r.width
    ensures kind == "underline" ==> line.y1 == r.y + r.height * 0.9
    ensures kind != "underline" ==> line.y1 == r.y + r.height * 0.5
  {
    var lineY := if kind == "underline" then r.y + r.height * 0.9 else r.y + r.height * 0.5;
    Line(r.x, lineY, r.x + r.width, lineY)
  }

  /**
   * `applyLineAnnotation` for an underline, strike-through or text highlight:
   * nothing without a selection or without a measurable rectangle; otherwise one
   * annotation on the selection's page with one rectangle, or one line, per
   * measurable client rectangle.
   */
  function TextAnnotation(kind: string, id: string, color: string, sel: TextSelection,
                          rects: seq<ClientRect>, canvas: ClientRect): (a: Option<Annotation>)
    requires kind == "underline" || kind == "strike" || kind == "textHighlight"
    requires canvas.width != 0.0 && canvas.height != 0.0
    ensures a.Some? <==> HasSelection(sel) && |Measurable(rects)| > 0
    ensures a.Some? ==> a.value.pageNumber == sel.pageNumber
    ensures a.Some? && kind == "textHighlight" ==>
              a.value.kind == "highlight" && a.value.subtype == "text" &&
              a.value.rects == Some(RelativeRects(Measurable(rects), canvas))
    ensures a.Some? && kind != "textHighlight" ==>
              a.value.kind == kind && |a.value.lines| == |Measurable(rects)| &&
              forall i :: 0 <= i < |a.value.lines| ==> a.value.lines[i] == RectLine(kind, RelativeRect(Measurable(rects)[i], canvas))
  {
    var kept := Measurable(rects);
    if !HasSelection(sel) || |kept| == 0 then None
    else
      var boxes := RelativeRects(kept, canvas);
      if kind == "textHighlight" then
        Some(Annotation(id, "highlight", sel.pageNumber, color, "text", None, Some(boxes), [], [], 0.0, 0.0, "", false, 0.0, 0.0, "", None, false))
      else
        Some(Annotation(id, kind, sel.pageNumber, color, "", None, None,
                        seq(|kept|, i requires 0 <= i < |kept| => RectLine(kind, boxes[i])),
                        [], 0.0, 0.0, "", false, 0.0, 0.0, "", None, false))
  }
}
