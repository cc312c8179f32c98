/**
 * The entities of the document workspace: page-normalised geometry, the
 * annotations drawn on pages, clippings, the items and notes placed on the
 * workspace canvas, bookmarks, and the in-progress drawing gesture.
 *
 * JavaScript objects with optional fields are records here. A field that the
 * code only ever reads through `||` uses the falsy value (`0`, `""`) for
 * "absent", because `||` treats both alike; a field read through `??` or
 * tested for presence is an `Option`.
 */
module WorkspaceTypes {
  import opened Wrappers

  /** A point in page-normalised coordinates (0..1 across the page). */
  datatype Point = Point(x: real, y: real)

  /** A rectangle in page-normalised coordinates. */
  datatype Rect = Rect(x: real, y: real, width: real, height: real)

  /** An annotation `position`: a note only stores `x` and `y`, an area highlight the full box. */
  datatype Box = Box(x: real, y: real, width: Option<real>, height: Option<real>)

  /** A measured element box in client pixels, as `getBoundingClientRect` reports it. */
  datatype ClientRect = ClientRect(left: real, top: real, width: real, height: real)

  /** An underline or strike-through segment. */
  datatype Line = Line(x1: real, y1: real, x2: real, y2: real)

  datatype Annotation = Annotation(
    id: string,
    kind: string,                 // 'highlight' | 'underline' | 'strike' | 'freehand' | 'comment'
    pageNumber: int,
    color: string,
    subtype: string,              // 'area' / 'text' for highlights, "" otherwise
    position: Option<Box>,
    rects: Option<seq<Rect>>,
    lines: seq<Line>,
    points: seq<Point>,
    strokeWidth: real,            // 0 when absent
    brushSize: real,              // 0 when absent
    mode: string,
    pressureEnabled: bool,
    pressureFactor: real,
    opacity: real,
    content: string,
    linkedText: Option<string>,
    isTemporary: bool)

  /** One part of a combined clipping. */
  datatype Segment = Segment(id: string, labelText: string, content: string, sourcePage: string, sourceRect: Option<Rect>)

  datatype Clipping = Clipping(
    id: string,
    content: string,
    sourcePage: string,           // "3" for one page, "3, 5" for a combined clip
    sourceRect: Option<Rect>,
    source: string,               // 'PDF' | 'OCR' | "" when absent
    kind: string,                 // 'combined' or "" when absent
    segments: Option<seq<Segment>>)

  /** A card on the workspace canvas; `itemType`, `sourceId` and `clippingId` are "" when absent. */
  datatype WorkspaceItem = WorkspaceItem(id: string, itemType: string, sourceId: string, clippingId: string, x: real, y: real)

  /** A note on the workspace canvas, linked to a region of a page. */
  datatype WorkspaceComment = WorkspaceComment(
    id: string, content: string, quoteText: string, pageNumber: int,
    sourceRect: Rect, sourceType: string, color: string)

  datatype Bookmark = Bookmark(id: string, pageNumber: int, position: Point, color: string, note: Option<string>)

  /** The gesture in progress on a page overlay (`drawingState`). */
  datatype DrawingState =
    | Erasing(page: int, overlayKey: string)
    | AreaDrag(tool: string, page: int, overlayKey: string, start: Point, lastPoint: Option<Point>)
    | FreehandDrag(page: int, overlayKey: string, points: seq<Point>, brushSize: real, mode: string,
                   pressureEnabled: bool, pressure: real, opacity: real, lastPoint: Option<Point>)

  /** One search hit: its page and the rectangles to paint. */
  datatype SearchMatch = SearchMatch(id: string, pageNumber: int, rects: seq<Rect>)

  const DEFAULT_BRUSH_SIZE: real := 25.6
  const DEFAULT_BRUSH_OPACITY: real := 1.0
  const WORKSPACE_LEFT_STACK_X: real := 0.08
  const WORKSPACE_LEFT_STACK_SPREAD: real := 0.04
  const WORKSPACE_ERASER_TOOL_ID: string := "workspaceEraser"
  const ANNOTATION_TYPES: seq<string> := ["highlight", "underline", "strike", "freehand", "comment"]

  function ClipId(c: Clipping): string { c.id }
  function NoteId(n: WorkspaceComment): string { n.id }

  /** `list.filter(x => x.id !== id)`: exactly the records whose id, read by `idOf`, is another. */
  function WithoutId<T(!new)>(xs: seq<T>, idOf: T -> string, id: string): (r: seq<T>)
    ensures forall x :: x in r <==> x in xs && idOf(x) != id
  {
    if |xs| == 0 then []
    else
      assert forall x :: x in xs <==> x == xs[0] || x in xs[1..];
      (if idOf(xs[0]) != id then [xs[0]] else []) + WithoutId(xs[1..], idOf, id)
  }
}
