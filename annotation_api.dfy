/**
 * The wire format between the viewer's annotations and clippings and the
 * backend's JSON rows, both ways.
 *
 * JavaScript values are modelled field by field: a falsy string is "", a
 * falsy number 0, `null` / `undefined` is `None`, and a field that goes
 * through `parseFloat` is a `Raw` value (missing, a number, or text, which
 * is truthy when not empty even where it does not parse). A page field that
 * goes through `parseInt` is the text `String(value)` gives, `None` when the
 * field is missing.
 */
module AnnotationApi {
  import opened Wrappers
  import opened JsText
  import opened WorkspaceTypes

  const DEFAULT_COLOR: string := "#FFFF00"
  const DEFAULT_HIGHLIGHT_OPACITY: real := 0.6
  const DEFAULT_STROKE_WIDTH: real := 2.0
  const DEFAULT_BRUSH_SIZE: real := 3.0
  const DEFAULT_COMMENT_CENTRE: real := 0.5
  const DEFAULT_COMMENT_SIZE: real := 0.05
  const DEFAULT_CLIPPING_CONFIDENCE: real := 0.88

  /** The annotation types the outbound transform knows. */
  predicate KnownOutboundKind(kind: string)
  {
    kind in {"highlight", "underline", "strike", "freehand", "comment", "clipping"}
  }

  /** `s || d` on a string. */
  function Or(s: string, d: string): (r: string)
    ensures r != "" || d == ""
    ensures s != "" ==> r == s
  {
    if s != "" then s else d
  }

  /** `v || d` on a number. */
  function NumOr(v: real, d: real): (r: real)
    ensures v != 0.0 ==> r == v
    ensures v == 0.0 ==> r == d
  {
    if v != 0.0 then v else d
  }

  // ---------------------------------------------------------------- outbound

  /** One part of a combined clipping as the viewer holds it. */
  datatype LocalSegment = LocalSegment(
    segmentClippingId: Option<string>,
    id: Option<string>,
    wireId: Option<string>,          // a `segment_clipping_id` already in wire form
    labelText: Option<string>,
    clippingOrder: Option<int>,       // `None` when not a finite number
    content: string,
    sourcePage: string)               // `String(sourcePage)`

  /** An annotation or clipping as the viewer holds it, with the fields the outbound transform reads. */
  datatype Outgoing = Outgoing(
    kind: string,
    pageNumber: int,                  // 0 when absent
    sourcePage: string,               // `String(sourcePage)`: "undefined" when absent
    color: string,
    opacity: Option<real>,
    rects: Option<seq<Rect>>,
    position: Option<Rect>,
    strokeWidth: real,
    lines: Option<seq<Line>>,
    brushSize: real,
    points: Option<seq<Point>>,
    content: string,
    linkedText: string,
    segments: Option<seq<LocalSegment>>,
    source: string,
    sourceRect: Option<Rect>,
    confidence: Option<real>)

  datatype WireSegment = WireSegment(segmentClippingId: Option<string>, labelText: string, clippingOrder: int, content: string)

  /** The type-specific part of an outbound payload. */
  datatype Body =
    | HighlightBody(opacity: real, rects: seq<Rect>)
    | LineBody(strokeWidth: real, lines: seq<Line>)
    | FreehandBody(brushSize: real, freehandOpacity: real, points: seq<Point>)
    | CommentBody(content: string, linkedText: Option<string>,
                  positionX: real, positionY: real, positionWidth: real, positionHeight: real)
    | CombinedBody(combinedContent: string, combinedSourcePage: int, combinedSource: string, segments: seq<WireSegment>)
    | ClippingBody(clipContent: string, clipSourcePage: int, sourceRect: Rect, clipSource: string, confidence: real)

  /** The JSON object `transformAnnotationForAPI` builds. */
  datatype Payload = Payload(pdfId: int, pageNumber: int, kind: string, color: string, body: Body)

  /** `parseInt(String(page).split(',')[0], 10)`: the integer before the first comma. */
  function FirstPageNumber(sourcePage: string): Option<int>
  {
    ParseInt(Split(sourcePage, ',')[0])
  }

  /** "3, 5" or "3" gives 3. */
  lemma FirstPageNumberOfList(first: int, rest: string)
    ensures FirstPageNumber(IntToString(first) + "," + rest) == Some(first)
    ensures FirstPageNumber(IntToString(first)) == Some(first)
  {
    var f := IntToString(first);
    assert ',' !in f by {
      if first >= 0 {
        assert AllDigits(f);
      } else {
        assert AllDigits(f[1..]) by { assert f[1..] == NatToString(-first); }
      }
    }
    SplitFirst(f, rest, ',');
    assert f + "," + rest == f + [','] + rest;
    SplitNoSep(f, ',');
    ParseIntOfIntToString(first, "");
    assert f + "" == f;
  }

  /** `page_number`: `pageNumber`, else the first page of `sourcePage`, else 1; never 0. */
  function PayloadPage(a: Outgoing): (r: int)
    ensures r != 0
    ensures a.pageNumber != 0 ==> r == a.pageNumber
    ensures a.pageNumber == 0 && FirstPageNumber(a.sourcePage).Some? && FirstPageNumber(a.sourcePage).value != 0 ==>
              r == FirstPageNumber(a.sourcePage).value
    ensures a.pageNumber == 0 && (FirstPageNumber(a.sourcePage).None? || FirstPageNumber(a.sourcePage) == Some(0)) ==> r == 1
  {
    if a.pageNumber != 0 then a.pageNumber
    else match FirstPageNumber(a.sourcePage)
      case Some(n) => if n != 0 then n else 1
      case None => 1
  }

  /** The rectangles a highlight sends: its `rects`, else one built from `position`, else none. */
  function HighlightRects(a: Outgoing): (r: seq<Rect>)
    ensures a.rects.Some? ==> r == a.rects.value
    ensures a.rects.None? && a.position.Some? ==> r == [a.position.value]
    ensures a.rects.None? && a.position.None? ==> r == []
  {
    match a.rects
    case Some(rs) => rs
    case None => if a.position.Some? then [a.position.value] else []
  }

  /** The label a segment gets when it has none: "Segment N", counting from 1. */
  function SegmentLabel(n: nat): string
  {
    "Segment " + NatToString(n)
  }

  /** A combined clipping's segments in wire form, numbered from `from + 1`. */
  function WireSegments(segs: seq<LocalSegment>, from: nat): (r: seq<WireSegment>)
    ensures |r| == |segs|
    ensures forall i :: 0 <= i < |r| ==>
              r[i].labelText == OrElse(segs[i].labelText, SegmentLabel(from + i + 1)) &&
              r[i].clippingOrder == OrElse(segs[i].clippingOrder, from + i + 1) &&
              r[i].content == segs[i].content &&
              r[i].segmentClippingId == Coalesce(segs[i].segmentClippingId, Coalesce(segs[i].id, segs[i].wireId))
    decreases |segs|
  {
    if |segs| == 0 then []
    else
      var s := segs[0];
      [WireSegment(Coalesce(s.segmentClippingId, Coalesce(s.id, s.wireId)), OrElse(s.labelText, SegmentLabel(from + 1)), OrElse(s.clippingOrder, from + 1), s.content)]
        + WireSegments(segs[1..], from + 1)
  }

  /** Segments without labels or orders of their own get distinct labels and the orders 1, 2, 3, … */
  lemma GeneratedLabelsDistinct(segs: seq<LocalSegment>)
    requires forall i :: 0 <= i < |segs| ==> segs[i].labelText.None? && segs[i].clippingOrder.None?
    ensures var r := WireSegments(segs, 0);
            (forall i :: 0 <= i < |r| ==> r[i].clippingOrder == i + 1) &&
            (forall i, j :: 0 <= i < j < |r| ==> r[i].labelText != r[j].labelText)
  {
    var r := WireSegments(segs, 0);
    forall i, j | 0 <= i < j < |r|
      ensures r[i].labelText != r[j].labelText
    {
      SegmentLabelInjective(i + 1, j + 1);
    }
  }

  lemma SegmentLabelInjective(m: nat, n: nat)
    requires m != n
    ensures SegmentLabel(m) != SegmentLabel(n)
  {
    var p := "Segment ";
    assert SegmentLabel(m)[|p|..] == NatToString(m);
    assert SegmentLabel(n)[|p|..] == NatToString(n);
    assert DigitsValue(NatToString(m)) != DigitsValue(NatToString(n));
  }

  /** The clipping's page: the first page of `sourcePage` when it parses, else `pageNumber || 1`. */
  function ClippingSourcePage(a: Outgoing): (r: int)
    ensures FirstPageNumber(a.sourcePage).Some? ==> r == FirstPageNumber(a.sourcePage).value
    ensures FirstPageNumber(a.sourcePage).None? ==> r == (if a.pageNumber != 0 then a.pageNumber else 1)
  {
    match FirstPageNumber(a.sourcePage)
    case Some(n) => n
    case None => if a.pageNumber != 0 then a.pageNumber else 1
  }

  /** A combined clipping's page: the first segment's first page when that parses, else the clipping's own. */
  function CombinedSourcePage(a: Outgoing): (r: int)
    requires a.segments.Some? && |a.segments.value| > 0
    ensures FirstPageNumber(a.segments.value[0].sourcePage).Some? ==> r == FirstPageNumber(a.segments.value[0].sourcePage).value
    ensures FirstPageNumber(a.segments.value[0].sourcePage).None? ==> r == ClippingSourcePage(a)
  {
    match FirstPageNumber(a.segments.value[0].sourcePage)
    case Some(n) => n
    case None => ClippingSourcePage(a)
  }

  /** The type-specific part of `transformAnnotationForAPI`, for a known type. */
  function OutboundBody(a: Outgoing): (b: Body)
    requires KnownOutboundKind(a.kind)
  {
    match a.kind
    case "highlight" => HighlightBody(OrElse(a.opacity, DEFAULT_HIGHLIGHT_OPACITY), HighlightRects(a))
    case "underline" => LineBody(NumOr(a.strokeWidth, DEFAULT_STROKE_WIDTH), OrElse(a.lines, []))
    case "strike" => LineBody(NumOr(a.strokeWidth, DEFAULT_STROKE_WIDTH), OrElse(a.lines, []))
    case "freehand" =>
      FreehandBody(NumOr(a.brushSize, NumOr(a.strokeWidth, DEFAULT_BRUSH_SIZE)), OrElse(a.opacity, 1.0), OrElse(a.points, []))
    case "comment" =>
      var p := OrElse(a.position, Rect(DEFAULT_COMMENT_CENTRE, DEFAULT_COMMENT_CENTRE, DEFAULT_COMMENT_SIZE, DEFAULT_COMMENT_SIZE));
      CommentBody(a.content, if a.linkedText != "" then Some(a.linkedText) else None,
                  p.x, p.y, NumOr(p.width, DEFAULT_COMMENT_SIZE), NumOr(p.height, DEFAULT_COMMENT_SIZE))
    case _ =>
      if a.segments.Some? && |a.segments.value| > 0 then
        CombinedBody(Or(a.content, "Combined clipping"), CombinedSourcePage(a), Or(a.source, "PDF"), WireSegments(a.segments.value, 0))
      else
        ClippingBody(a.content, ClippingSourcePage(a), OrElse(a.sourceRect, Rect(0.0, 0.0, 0.0, 0.0)), Or(a.source, "OCR"),
                     OrElse(a.confidence, DEFAULT_CLIPPING_CONFIDENCE))
  }

  /**
   * `transformAnnotationForAPI`: the payload for a known type, `None` for any
   * other. A clipping is always sent as type "clipping"; a combined one
   * carries its segments, a single one its source rectangle.
   */
  function ForApi(a: Outgoing, pdfId: int): (r: Option<Payload>)
    ensures r.None? <==> !KnownOutboundKind(a.kind)
    ensures r.Some? ==> r.value.pdfId == pdfId && r.value.pageNumber == PayloadPage(a) && r.value.kind == a.kind &&
                        r.value.color == Or(a.color, DEFAULT_COLOR) && r.value.color != ""
    ensures r.Some? && a.kind == "highlight" ==>
              r.value.body == HighlightBody(OrElse(a.opacity, DEFAULT_HIGHLIGHT_OPACITY), HighlightRects(a))
    ensures r.Some? && (a.kind == "underline" || a.kind == "strike") ==>
              r.value.body.LineBody? && r.value.body.lines == OrElse(a.lines, []) && r.value.body.strokeWidth != 0.0
    ensures r.Some? && a.kind == "freehand" ==>
              r.value.body.FreehandBody? && r.value.body.points == OrElse(a.points, []) && r.value.body.brushSize != 0.0
    ensures r.Some? && a.kind == "comment" ==>
              r.value.body.CommentBody? && r.value.body.positionWidth != 0.0 && r.value.body.positionHeight != 0.0 &&
              (a.position.None? ==>
                 r.value.body.positionX == 0.5 && r.value.body.positionY == 0.5 &&
                 r.value.body.positionWidth == 0.05 && r.value.body.positionHeight == 0.05)
    ensures r.Some? && a.kind == "clipping" ==>
              (r.value.body.CombinedBody? <==> a.segments.Some? && |a.segments.value| > 0)
  {
    if KnownOutboundKind(a.kind) then Some(Payload(pdfId, PayloadPage(a), a.kind, Or(a.color, DEFAULT_COLOR), OutboundBody(a)))
    else None
  }

  // ---------------------------------------------------------------- inbound

  /**
   * A field read through `parseFloat`: missing (`null` / `undefined`), a
   * number, text that starts with the number `v`, or other text (`empty` for "").
   */
  datatype Raw = Missing | Num(v: real) | NumericText(v: real) | OtherText(empty: bool)
  {
    /** The field parses to a number that is not 0. */
    predicate ParsesNonZero() { (this.Num? || this.NumericText?) && this.v != 0.0 }

    /** `parseFloat(x) || d`: 0 and `NaN` fall back to `d`. */
    function FloatOr(d: real): (r: real)
      ensures ParsesNonZero() ==> r == this.v
      ensures !ParsesNonZero() ==> r == d
    {
      if ParsesNonZero() then this.v else d
    }

    /** `a ?? b` */
    function OrRaw(other: Raw): Raw { if this.Missing? then other else this }

    /** JavaScript truthiness of the field itself: a non-zero number or a non-empty string. */
    predicate Truthy()
    {
      match this
      case Missing => false
      case Num(v) => v != 0.0
      case NumericText(_) => true
      case OtherText(empty) => !empty
    }
  }

  /** The clipping columns of a backend row. */
  datatype WireClip = WireClip(
    content: string,
    sourcePage: Option<string>,
    rectX: Raw, rectY: Raw, rectWidth: Raw, rectHeight: Raw,
    source: string)

  /** A segment of a combined clipping as the backend sends it. */
  datatype WireSegmentIn = WireSegmentIn(
    segmentClippingId: Option<string>,
    labelText: Option<string>,
    clippingOrder: Option<int>,
    sourcePage: Option<string>,
    pageNumber: Option<string>,
    rectX: Raw, rectY: Raw, rectWidth: Raw, rectHeight: Raw)

  /** A backend row, with the fields the inbound transform reads. */
  datatype Row = Row(
    id: string,
    pageNumber: Option<string>,
    kind: string,
    color: string,
    createdAt: string,
    opacity: Option<real>,
    rects: Option<seq<Rect>>,
    strokeWidth: real,
    lines: Option<seq<Line>>,
    brushSize: real,
    points: Option<seq<Point>>,
    content: string,
    linkedText: string,
    positionX: Raw, positionY: Raw, positionWidth: Raw, positionHeight: Raw,
    clipping: Option<WireClip>,
    own: WireClip,                    // the row's own clipping columns, read for a bare "text" row
    segments: Option<seq<WireSegmentIn>>)

  datatype SegmentIn = SegmentIn(id: Option<string>, labelText: Option<string>, clippingOrder: Option<int>, sourcePage: int, sourceRect: Rect)

  /** The viewer-side object `transformAnnotationFromAPI` builds. */
  datatype Incoming =
    | HighlightIn(id: string, pageNumber: Option<string>, color: string, createdAt: string,
                  opacity: real, rects: seq<Rect>, position: Option<Rect>)
    | LinesIn(id: string, pageNumber: Option<string>, kind: string, color: string, createdAt: string,
              strokeWidth: real, lines: seq<Line>)
    | FreehandIn(id: string, pageNumber: Option<string>, color: string, createdAt: string,
                 brushSize: real, freehandStrokeWidth: real, freehandOpacity: real, points: seq<Point>)
    | CommentIn(id: string, pageNumber: Option<string>, color: string, createdAt: string,
                content: string, linkedText: Option<string>, commentPosition: Rect)
    | ClippingIn(id: string, clipKind: string, clipPage: int, clipContent: string, clipSourcePage: int,
                 sourceRect: Rect, clipSource: string, clipCreatedAt: string, segments: Option<seq<SegmentIn>>)

  /** `normalizePage`: a page that does not parse is 1, a page below 1 is taken as counted from 0. */
  function NormalizePage(val: Option<string>): (r: int)
    ensures val.None? ==> r == 1
    ensures val.Some? && ParseInt(val.value).None? ==> r == 1
    ensures val.Some? && ParseInt(val.value).Some? ==>
              r == (if ParseInt(val.value).value < 1 then ParseInt(val.value).value + 1 else ParseInt(val.value).value)
  {
    if val.None? then 1
    else match ParseInt(val.value)
      case None => 1
      case Some(n) => if n < 1 then n + 1 else n
  }

  /** Any page written as a non-negative integer normalises to a page from 1 on; 0 and 1 both give page 1. */
  lemma NormalizedPagesStartAtOne(n: nat, rest: string)
    requires rest == [] || !IsDigit(rest[0])
    ensures NormalizePage(Some(NatToString(n) + rest)) >= 1
    ensures NormalizePage(Some(NatToString(0) + rest)) == 1 && NormalizePage(Some(NatToString(1) + rest)) == 1
    ensures n >= 1 ==> NormalizePage(Some(NatToString(n) + rest)) == n
  {
    NormalizedPageOf(n, rest);
    NormalizedPageOf(0, rest);
    NormalizedPageOf(1, rest);
  }

  /** A page written as `n` followed by a non-digit normalises to `n`, or to 1 for 0. */
  lemma NormalizedPageOf(n: nat, rest: string)
    requires rest == [] || !IsDigit(rest[0])
    ensures NormalizePage(Some(NatToString(n) + rest)) == (if n == 0 then 1 else n)
  {
    ParseIntOfNatToString(n, rest);
  }

  function RectFrom(x: Raw, y: Raw, w: Raw, h: Raw): (r: Rect)
  {
    Rect(x.FloatOr(0.0), y.FloatOr(0.0), w.FloatOr(0.0), h.FloatOr(0.0))
  }

  /** One inbound segment: its own page and rectangle fields, falling back to the clipping's. */
  function SegmentFromApi(s: WireSegmentIn, c: WireClip): (r: SegmentIn)
    ensures r.id == s.segmentClippingId && r.labelText == s.labelText && r.clippingOrder == s.clippingOrder
    ensures r.sourcePage == NormalizePage(Coalesce(s.sourcePage, Coalesce(s.pageNumber, c.sourcePage)))
  {
    var page := Coalesce(s.sourcePage, Coalesce(s.pageNumber, c.sourcePage));
    SegmentIn(s.segmentClippingId, s.labelText, s.clippingOrder, NormalizePage(page),
              RectFrom(s.rectX.OrRaw(c.rectX), s.rectY.OrRaw(c.rectY), s.rectWidth.OrRaw(c.rectWidth), s.rectHeight.OrRaw(c.rectHeight)))
  }

  function SegmentsFromApi(segs: seq<WireSegmentIn>, c: WireClip): (r: seq<SegmentIn>)
    ensures |r| == |segs|
    ensures forall i :: 0 <= i < |r| ==> r[i] == SegmentFromApi(segs[i], c)
  {
    seq(|segs|, i requires 0 <= i < |segs| => SegmentFromApi(segs[i], c))
  }

  /** The row carries clipping data: a `clipping` object, or a bare "text" row with a source rectangle. */
  predicate HasClippingData(row: Row)
  {
    row.clipping.Some? || (row.kind == "text" && row.own.rectX.Truthy())
  }

  function ClippingFromApi(row: Row, fallbackId: string, now: string): (r: Incoming)
    requires HasClippingData(row)
  {
    var c := if row.clipping.Some? then row.clipping.value else row.own;
    var segments := SegmentsFromApi(OrElse(row.segments, []), c);
    ClippingIn(Or(row.id, fallbackId), if |segments| > 0 then "combined" else "clipping",
               NormalizePage(row.pageNumber), c.content, NormalizePage(c.sourcePage),
               RectFrom(c.rectX, c.rectY, c.rectWidth, c.rectHeight), c.source, Or(row.createdAt, now),
               if |segments| > 0 then Some(segments) else None)
  }

  /**
   * `transformAnnotationFromAPI`: the viewer object for a known type or any
   * row with clipping data, `None` otherwise. `fallbackId` and `now` stand for
   * the generated id and the current time.
   */
  function FromApi(row: Row, fallbackId: string, now: string): (r: Option<Incoming>)
    ensures r.None? <==> row.kind !in {"highlight", "underline", "strike", "freehand", "comment"} && !HasClippingData(row)
    ensures r.Some? && row.kind == "freehand" ==>
              r.value.FreehandIn? && r.value.brushSize == r.value.freehandStrokeWidth == NumOr(row.brushSize, DEFAULT_BRUSH_SIZE) &&
              r.value.brushSize != 0.0 && r.value.points == OrElse(row.points, [])
    ensures r.Some? && row.kind == "comment" ==>
              r.value.CommentIn? && r.value.commentPosition.x != 0.0 && r.value.commentPosition.y != 0.0 &&
              r.value.commentPosition.width != 0.0 && r.value.commentPosition.height != 0.0
    ensures r.Some? && r.value.ClippingIn? ==>
              (r.value.clipKind == "combined" <==> row.segments.Some? && |row.segments.value| > 0) &&
              (r.value.segments.Some? <==> r.value.clipKind == "combined") &&
              (r.value.clipKind == "combined" ==> |r.value.segments.value| == |row.segments.value|)
    ensures r.Some? && r.value.ClippingIn? <==>
              row.kind !in {"highlight", "underline", "strike", "freehand", "comment"} && HasClippingData(row)
  {
    var id := Or(row.id, fallbackId);
    var color := Or(row.color, DEFAULT_COLOR);
    match row.kind
    case "highlight" =>
      Some(HighlightIn(id, row.pageNumber, color, row.createdAt, OrElse(row.opacity, DEFAULT_HIGHLIGHT_OPACITY),
                       OrElse(row.rects, []),
                       if row.rects.Some? && |row.rects.value| > 0 then Some(row.rects.value[0]) else None))
    case "underline" =>
      Some(LinesIn(id, row.pageNumber, row.kind, color, row.createdAt, NumOr(row.strokeWidth, DEFAULT_STROKE_WIDTH), OrElse(row.lines, [])))
    case "strike" =>
      Some(LinesIn(id, row.pageNumber, row.kind, color, row.createdAt, NumOr(row.strokeWidth, DEFAULT_STROKE_WIDTH), OrElse(row.lines, [])))
    case "freehand" =>
      Some(FreehandIn(id, row.pageNumber, color, row.createdAt, NumOr(row.brushSize, DEFAULT_BRUSH_SIZE),
                      NumOr(row.brushSize, DEFAULT_BRUSH_SIZE), OrElse(row.opacity, 1.0), OrElse(row.points, [])))
    case "comment" =>
      Some(CommentIn(id, row.pageNumber, color, row.createdAt, row.content,
                     if row.linkedText != "" then Some(row.linkedText) else None,
                     Rect(row.positionX.FloatOr(DEFAULT_COMMENT_CENTRE), row.positionY.FloatOr(DEFAULT_COMMENT_CENTRE),
                          row.positionWidth.FloatOr(DEFAULT_COMMENT_SIZE), row.positionHeight.FloatOr(DEFAULT_COMMENT_SIZE))))
    case _ =>
      if HasClippingData(row) then Some(ClippingFromApi(row, fallbackId, now)) else None
  }

  /**
   * A "text" row without a `clipping` object is read back exactly when its
   * `source_rect_x` is truthy: missing, 0 and "" are dropped, while the text
   * "0" is kept and gives x = 0.
   */
  lemma BareTextRowNeedsTruthyRectX(row: Row, fallbackId: string, now: string)
    requires row.kind == "text" && row.clipping.None?
    ensures FromApi(row, fallbackId, now).Some? <==> row.own.rectX.Truthy()
    ensures row.own.rectX in {Missing, Num(0.0), OtherText(true)} ==> FromApi(row, fallbackId, now).None?
    ensures row.own.rectX == NumericText(0.0) ==>
              var r := FromApi(row, fallbackId, now);
              r.Some? && r.value.ClippingIn? && r.value.sourceRect.x == 0.0
  {
  }

  // ---------------------------------------------------------------- round trip

  function NoClip(): WireClip { WireClip("", None, Missing, Missing, Missing, Missing, "") }

  /** The row the backend stores for an annotation payload and sends back, under the same field names. */
  function Stored(p: Payload, id: string, createdAt: string): (row: Row)
    requires !p.body.CombinedBody? && !p.body.ClippingBody?
    ensures row.kind == p.kind && row.color == p.color && row.id == id
  {
    var base := Row(id, Some(IntToString(p.pageNumber)), p.kind, p.color, createdAt, None, None, 0.0, None, 0.0, None, "", "",
                    Missing, Missing, Missing, Missing, None, NoClip(), None);
    match p.body
    case HighlightBody(opacity, rects) => base.(opacity := Some(opacity), rects := Some(rects))
    case LineBody(sw, lines) => base.(strokeWidth := sw, lines := Some(lines))
    case FreehandBody(bs, opacity, points) => base.(brushSize := bs, opacity := Some(opacity), points := Some(points))
    case CommentBody(content, linked, x, y, w, h) =>
      base.(content := content, linkedText := OrElse(linked, ""), positionX := Num(x), positionY := Num(y),
            positionWidth := Num(w), positionHeight := Num(h))
  }

  /** An underline or strike-through sent and read back keeps its lines, point for point, and its stroke width. */
  lemma LinesRoundTrip(a: Outgoing, pdfId: int, id: string, createdAt: string, fallbackId: string, now: string)
    requires a.kind == "underline" || a.kind == "strike"
    ensures var p := ForApi(a, pdfId).value;
            var r := FromApi(Stored(p, id, createdAt), fallbackId, now);
            r.Some? && r.value.LinesIn? && r.value.lines == OrElse(a.lines, []) &&
            r.value.strokeWidth == NumOr(a.strokeWidth, DEFAULT_STROKE_WIDTH) && r.value.kind == a.kind
  {
  }

  /** A freehand stroke sent and read back keeps its points and its opacity, and its brush size when it had one. */
  lemma PointsRoundTrip(a: Outgoing, pdfId: int, id: string, createdAt: string, fallbackId: string, now: string)
    requires a.kind == "freehand"
    ensures var p := ForApi(a, pdfId).value;
            var r := FromApi(Stored(p, id, createdAt), fallbackId, now);
            r.Some? && r.value.FreehandIn? && r.value.points == OrElse(a.points, []) &&
            r.value.freehandOpacity == OrElse(a.opacity, 1.0) &&
            (a.brushSize != 0.0 ==> r.value.brushSize == a.brushSize)
  {
  }

  /** A highlight sent and read back keeps the rectangles it sent, its opacity and its colour. */
  lemma HighlightRoundTrip(a: Outgoing, pdfId: int, id: string, createdAt: string, fallbackId: string, now: string)
    requires a.kind == "highlight"
    ensures var p := ForApi(a, pdfId).value;
            var r := FromApi(Stored(p, id, createdAt), fallbackId, now);
            r.Some? && r.value.HighlightIn? && r.value.rects == HighlightRects(a) &&
            r.value.opacity == OrElse(a.opacity, DEFAULT_HIGHLIGHT_OPACITY) &&
            (a.color != "" ==> r.value.color == a.color)
  {
  }

  /** A comment sent and read back keeps its text, and its position wherever no coordinate is 0. */
  lemma CommentRoundTrip(a: Outgoing, pdfId: int, id: string, createdAt: string, fallbackId: string, now: string)
    requires a.kind == "comment"
    requires a.position.Some? && a.position.value.x != 0.0 && a.position.value.y != 0.0
    requires a.position.value.width != 0.0 && a.position.value.height != 0.0
    ensures var p := ForApi(a, pdfId).value;
            var r := FromApi(Stored(p, id, createdAt), fallbackId, now);
            r.Some? && r.value.CommentIn? && r.value.content == a.content && r.value.commentPosition == a.position.value
  {
  }
}
