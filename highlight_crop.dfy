/**
 * The highlight view's crop calculator (`highlightBoundsPerPage`): for each
 * page, the vertical extent of its annotations, the groups of annotations
 * that lie close together, how far the page is cropped towards that extent
 * as the crop zoom grows, and the stop positions of the mask that fades out
 * the gaps between groups. Only the numbers are modelled, not the CSS text.
 */
module HighlightCrop {
  import opened Wrappers
  import opened WorkspaceTypes
  import opened WorkspaceUtils
  import opened StableSort

  const GAP_THRESHOLD: real := 0.02
  const MIN_LINE_HEIGHT: real := 0.01
  const MIN_VISIBLE_GAP: real := 0.01

  /** One rectangle collected for a page (`{ top, bottom, left, right }`). */
  datatype Span = Span(top: real, bottom: real, left: real, right: real)

  function SpanTop(s: Span): real { s.top }

  /** A run of spans close together vertically. */
  datatype Group = Group(top: real, bottom: real)

  // ---------------------------------------------------------------- collecting spans

  /** A highlight or note position; a missing size counts as 0. */
  function BoxSpan(b: Box): Span
  {
    var w, h := OrElse(b.width, 0.0), OrElse(b.height, 0.0);
    Span(b.y, b.y + h, b.x, b.x + w)
  }

  function RectSpans(rects: seq<Rect>): (r: seq<Span>)
    ensures |r| == |rects|
    ensures forall i :: 0 <= i < |rects| ==> r[i] == Span(rects[i].y, rects[i].y + rects[i].height, rects[i].x, rects[i].x + rects[i].width)
  {
    if |rects| == 0 then []
    else
      var q := rects[0];
      [Span(q.y, q.y + q.height, q.x, q.x + q.width)] + RectSpans(rects[1..])
  }

  function LineY1s(lines: seq<Line>): (r: seq<real>)
    ensures |r| == |lines| && forall i :: 0 <= i < |lines| ==> r[i] == lines[i].y1
  {
    seq(|lines|, i requires 0 <= i < |lines| => lines[i].y1)
  }

  function LineXs(lines: seq<Line>): (r: seq<real>)
    ensures |r| == 2 * |lines|
  {
    if |lines| == 0 then [] else [lines[0].x1, lines[0].x2] + LineXs(lines[1..])
  }

  /** The spans one annotation adds to its page. */
  function AnnotationSpans(a: Annotation): seq<Span>
  {
    if a.kind == "highlight" then
      if a.position.Some? then [BoxSpan(a.position.value)]
      else if a.rects.Some? && |a.rects.value| > 0 then RectSpans(a.rects.value)
      else []
    else if a.kind == "underline" || a.kind == "strike" then
      if |a.lines| > 0 then
        var minY, maxY := MinOf(LineY1s(a.lines)), MaxOf(LineY1s(a.lines));
        var height := Max(MIN_LINE_HEIGHT, maxY - minY);
        [Span(minY, maxY + height, MinOf(LineXs(a.lines)), MaxOf(LineXs(a.lines)))]
      else []
    else if a.kind == "freehand" then
      if |a.points| > 0 then
        var sw := (if a.strokeWidth != 0.0 then a.strokeWidth else DEFAULT_BRUSH_SIZE) / 100.0;
        var xs, ys := Xs(a.points), Ys(a.points);
        [Span(Max(0.0, MinOf(ys) - sw), Min(1.0, MaxOf(ys) + sw), Max(0.0, MinOf(xs) - sw), Min(1.0, MaxOf(xs) + sw))]
      else []
    else if a.kind == "comment" then
      if a.position.Some? then [BoxSpan(a.position.value)] else []
    else []
  }

  /** `filteredAnnotations`: the type is switched on in the filter map and the annotation is not temporary. */
  predicate Shown(a: Annotation, filters: map<string, bool>)
  {
    a.kind in filters && filters[a.kind] && !a.isTemporary
  }

  /** The spans of one page, in annotation order. */
  function PageSpans(annotations: seq<Annotation>, filters: map<string, bool>, page: int): seq<Span>
  {
    if |annotations| == 0 then []
    else
      var a := annotations[0];
      (if Shown(a, filters) && a.pageNumber == page then AnnotationSpans(a) else [])
        + PageSpans(annotations[1..], filters, page)
  }

  // ---------------------------------------------------------------- extent

  /** `bounds.minY`: starts at 1 and takes the least top. */
  function MinTop(spans: seq<Span>): (m: real)
    ensures m <= 1.0
    ensures forall i :: 0 <= i < |spans| ==> m <= spans[i].top
    ensures m == 1.0 || exists i :: 0 <= i < |spans| && m == spans[i].top
  {
    if |spans| == 0 then 1.0
    else
      var m := MinTop(spans[..|spans| - 1]);
      assert forall i :: 0 <= i < |spans| - 1 ==> spans[..|spans| - 1][i] == spans[i];
      Min(m, spans[|spans| - 1].top)
  }

  /** `bounds.maxY`: starts at 0 and takes the greatest bottom. */
  function MaxBottom(spans: seq<Span>): (m: real)
    ensures m >= 0.0
    ensures forall i :: 0 <= i < |spans| ==> spans[i].bottom <= m
    ensures m == 0.0 || exists i :: 0 <= i < |spans| && m == spans[i].bottom
  {
    if |spans| == 0 then 0.0
    else
      var m := MaxBottom(spans[..|spans| - 1]);
      assert forall i :: 0 <= i < |spans| - 1 ==> spans[..|spans| - 1][i] == spans[i];
      Max(m, spans[|spans| - 1].bottom)
  }

  /** `cropProgress`: the crop zoom clamped to [1, 2], minus 1; no crop outside highlight view. */
  function CropProgress(isHighlightView: bool, cropZoom: real): (p: real)
    ensures 0.0 <= p <= 1.0
    ensures !isHighlightView ==> p == 0.0
    ensures isHighlightView && cropZoom <= 1.0 ==> p == 0.0
    ensures isHighlightView && 1.0 <= cropZoom <= 2.0 ==> p == cropZoom - 1.0
    ensures isHighlightView && cropZoom >= 2.0 ==> p == 1.0
  {
    var zoom := if isHighlightView then cropZoom else 1.0;
    var normalizedScale := Max(1.0, Min(zoom, 2.0));
    (normalizedScale - 1.0) / (2.0 - 1.0)
  }

  /** `visibleTop`: the share of the space above the highlights that is cut off. */
  function VisibleTop(minY: real, p: real): real { minY * p }

  /** `visibleBottom`: one minus the share of the space below the highlights that is cut off. */
  function VisibleBottom(maxY: real, p: real): real { 1.0 - (1.0 - maxY) * p }

  lemma ScaleWithin(a: real, f: real)
    requires a >= 0.0 && 0.0 <= f <= 1.0
    ensures 0.0 <= a * f <= a
  {
    assert a * f <= a * 1.0;
  }

  /** The visible band always contains the highlighted extent, and lies inside the page. */
  lemma CropKeepsExtentVisible(minY: real, maxY: real, p: real)
    requires 0.0 <= minY <= 1.0 && 0.0 <= maxY <= 1.0 && 0.0 <= p <= 1.0
    ensures 0.0 <= VisibleTop(minY, p) <= minY
    ensures maxY <= VisibleBottom(maxY, p) <= 1.0
  {
    ScaleWithin(minY, p);
    ScaleWithin(1.0 - maxY, p);
  }

  /** At progress 0 the whole page shows; at progress 1 exactly the extent. */
  lemma CropEnds(minY: real, maxY: real)
    ensures VisibleTop(minY, 0.0) == 0.0 && VisibleBottom(maxY, 0.0) == 1.0
    ensures VisibleTop(minY, 1.0) == minY && VisibleBottom(maxY, 1.0) == maxY
  {
  }

  /** Every span of the page lies inside the visible band. */
  lemma SpansStayVisible(spans: seq<Span>, p: real)
    requires forall i :: 0 <= i < |spans| ==> 0.0 <= spans[i].top && spans[i].bottom <= 1.0
    requires 0.0 <= p <= 1.0
    ensures forall i :: 0 <= i < |spans| ==>
              VisibleTop(MinTop(spans), p) <= spans[i].top && spans[i].bottom <= VisibleBottom(MaxBottom(spans), p)
  {
    var lo, hi := MinTop(spans), MaxBottom(spans);
    if lo != 1.0 {
      var j :| 0 <= j < |spans| && lo == spans[j].top;
    }
    if hi != 0.0 {
      var k :| 0 <= k < |spans| && hi == spans[k].bottom;
    }
    CropKeepsExtentVisible(lo, hi, p);
  }

  // ---------------------------------------------------------------- groups

  /** The grouping loop as a function: `current` is the group being extended. */
  function GroupsFrom(spans: seq<Span>, current: Option<Group>): seq<Group>
  {
    if |spans| == 0 then
      if current.Some? then [current.value] else []
    else
      var r := spans[0];
      if current.None? then GroupsFrom(spans[1..], Some(Group(r.top, r.bottom)))
      else if r.top - current.value.bottom <= GAP_THRESHOLD then
        GroupsFrom(spans[1..], Some(Group(current.value.top, Max(current.value.bottom, r.bottom))))
      else
        [current.value] + GroupsFrom(spans[1..], Some(Group(r.top, r.bottom)))
  }

  /** The grouping loop over the spans sorted by top. */
  method HighlightGroups(spans: seq<Span>) returns (groups: seq<Group>)
    ensures groups == GroupsFrom(spans, None)
  {
    groups := [];
    var current: Option<Group> := None;
    var i := 0;
    while i < |spans|
      invariant 0 <= i <= |spans|
      invariant groups + GroupsFrom(spans[i..], current) == GroupsFrom(spans, None)
    {
      var r := spans[i];
      assert spans[i..][1..] == spans[i + 1..];
      if current.None? {
        current := Some(Group(r.top, r.bottom));
      } else {
        var gap := r.top - current.value.bottom;
        if gap <= GAP_THRESHOLD {
          current := Some(Group(current.value.top, Max(current.value.bottom, r.bottom)));
        } else {
          groups := groups + [current.value];
          current := Some(Group(r.top, r.bottom));
        }
      }
      i := i + 1;
    }
    if current.Some? {
      groups := groups + [current.value];
    }
  }

  /** Consecutive groups are more than the gap threshold apart. */
  predicate Separated(groups: seq<Group>)
  {
    forall i :: 0 <= i < |groups| - 1 ==> groups[i + 1].top - groups[i].bottom > GAP_THRESHOLD
  }

  predicate WellFormedGroups(groups: seq<Group>)
  {
    forall i :: 0 <= i < |groups| ==> groups[i].top <= groups[i].bottom
  }

  predicate WellFormedSpans(spans: seq<Span>)
  {
    forall i :: 0 <= i < |spans| ==> spans[i].top <= spans[i].bottom
  }

  lemma {:induction false} GroupsFromShape(spans: seq<Span>, c: Group)
    requires WellFormedSpans(spans) && c.top <= c.bottom
    ensures var g := GroupsFrom(spans, Some(c));
            |g| >= 1 && g[0].top == c.top && Separated(g) && WellFormedGroups(g)
    decreases |spans|
  {
    if |spans| > 0 {
      var r := spans[0];
      assert WellFormedSpans(spans[1..]);
      if r.top - c.bottom <= GAP_THRESHOLD {
        GroupsFromShape(spans[1..], Group(c.top, Max(c.bottom, r.bottom)));
      } else {
        var rest := GroupsFrom(spans[1..], Some(Group(r.top, r.bottom)));
        GroupsFromShape(spans[1..], Group(r.top, r.bottom));
        assert GroupsFrom(spans, Some(c)) == [c] + rest;
      }
    }
  }

  /** The groups of a page: one at least when there are spans, none otherwise; ordered and separated. */
  lemma GroupsOfSpans(spans: seq<Span>)
    requires WellFormedSpans(spans)
    ensures var g := GroupsFrom(spans, None);
            (|g| == 0 <==> |spans| == 0) && Separated(g) && WellFormedGroups(g)
  {
    if |spans| > 0 {
      assert WellFormedSpans(spans[1..]);
      GroupsFromShape(spans[1..], Group(spans[0].top, spans[0].bottom));
    }
  }

  /** Separated, well-formed groups come in strictly increasing order. */
  lemma SeparatedGroupsAscend(groups: seq<Group>)
    requires Separated(groups) && WellFormedGroups(groups)
    ensures forall i :: 0 <= i < |groups| - 1 ==> groups[i].bottom < groups[i + 1].top
  {
  }

  // ---------------------------------------------------------------- mask stops

  /** One colour stop of the mask: `black` (shown) or `transparent`, at a percentage of the page height. */
  datatype Stop = Stop(shown: bool, percent: real)

  /** The stops of one gap: its centre stays visible in proportion to `1 - p`, unless that is 0.01% or less. */
  function GapStops(gapStart: real, gapEnd: real, p: real): seq<Stop>
  {
    var gapSize := gapEnd - gapStart;
    var visibleGapSize := gapSize * Max(0.0, 1.0 - p);
    var visibleGapStart := gapStart + (gapSize - visibleGapSize) / 2.0;
    var visibleGapEnd := visibleGapStart + visibleGapSize;
    if visibleGapSize > MIN_VISIBLE_GAP then
      [Stop(false, gapStart), Stop(false, visibleGapStart), Stop(true, visibleGapStart),
       Stop(true, visibleGapEnd), Stop(false, visibleGapEnd), Stop(false, gapEnd)]
    else
      [Stop(false, gapStart), Stop(false, gapEnd)]
  }

  /** The stops from `currentPos` onwards: each group's gap, the group itself, and the gap after the last. */
  function MaskStopsFrom(groups: seq<Group>, p: real, currentPos: real): seq<Stop>
  {
    if |groups| == 0 then
      if currentPos < 100.0 then GapStops(currentPos, 100.0, p) else []
    else
      GroupStops(groups[0], p, currentPos) + MaskStopsFrom(groups[1..], p, groups[0].bottom * 100.0)
  }

  /** The stops one group adds: the gap above it, if any, then the group shown in full. */
  function GroupStops(g: Group, p: real, currentPos: real): seq<Stop>
  {
    var top, bottom := g.top * 100.0, g.bottom * 100.0;
    (if top > currentPos then GapStops(currentPos, top, p) else []) + [Stop(true, top), Stop(true, bottom)]
  }

  lemma ConcatAssoc<T>(a: seq<T>, b: seq<T>, c: seq<T>)
    ensures a + b + c == a + (b + c)
  {
  }

  /** The `maskStops` pushes. */
  method BuildMaskStops(groups: seq<Group>, p: real) returns (stops: seq<Stop>)
    ensures stops == MaskStopsFrom(groups, p, 0.0)
  {
    stops := [];
    var currentPos := 0.0;
    var i := 0;
    while i < |groups|
      invariant 0 <= i <= |groups|
      invariant stops + MaskStopsFrom(groups[i..], p, currentPos) == MaskStopsFrom(groups, p, 0.0)
    {
      assert groups[i..][0] == groups[i] && groups[i..][1..] == groups[i + 1..];
      var own := GroupStops(groups[i], p, currentPos);
      ConcatAssoc(stops, own, MaskStopsFrom(groups[i + 1..], p, groups[i].bottom * 100.0));
      stops := stops + own;
      currentPos := groups[i].bottom * 100.0;
      i := i + 1;
    }
    assert groups[i..] == [];
    if currentPos < 100.0 {
      stops := stops + GapStops(currentPos, 100.0, p);
    }
  }

  predicate Ascending(stops: seq<Stop>)
  {
    forall i :: 0 <= i < |stops| - 1 ==> stops[i].percent <= stops[i + 1].percent
  }

  lemma AscendingConcat(a: seq<Stop>, b: seq<Stop>)
    requires Ascending(a) && Ascending(b)
    requires |a| > 0 && |b| > 0 ==> a[|a| - 1].percent <= b[0].percent
    ensures Ascending(a + b)
  {
    if |a| > 0 && |b| > 0 {
      forall i | 0 <= i < |a + b| - 1
        ensures (a + b)[i].percent <= (a + b)[i + 1].percent
      {
        if i < |a| - 1 { assert (a + b)[i] == a[i] && (a + b)[i + 1] == a[i + 1]; }
        else if i == |a| - 1 { assert (a + b)[i] == a[|a| - 1] && (a + b)[i + 1] == b[0]; }
        else { assert (a + b)[i] == b[i - |a|] && (a + b)[i + 1] == b[i - |a| + 1]; }
      }
    }
  }

  /** A gap's stops run from its start to its end in order. */
  lemma GapStopsAscend(gapStart: real, gapEnd: real, p: real)
    requires gapStart <= gapEnd && 0.0 <= p <= 1.0
    ensures var s := GapStops(gapStart, gapEnd, p);
            Ascending(s) && s[0].percent == gapStart && s[|s| - 1].percent == gapEnd
  {
    var gapSize := gapEnd - gapStart;
    var visible := gapSize * Max(0.0, 1.0 - p);
    ScaleWithin(gapSize, Max(0.0, 1.0 - p));
    VisibleGapWithin(gapStart, gapSize, visible);
  }

  lemma VisibleGapWithin(gapStart: real, gapSize: real, visible: real)
    requires 0.0 <= visible <= gapSize
    ensures var vs := gapStart + (gapSize - visible) / 2.0;
            gapStart <= vs <= vs + visible <= gapStart + gapSize
  {
  }

  lemma {:induction false} MaskStopsFromAscend(groups: seq<Group>, p: real, currentPos: real)
    requires Separated(groups) && WellFormedGroups(groups) && 0.0 <= p <= 1.0
    requires |groups| > 0 ==> currentPos <= groups[0].top * 100.0
    ensures AscendingFrom(MaskStopsFrom(groups, p, currentPos), currentPos)
    decreases |groups|
  {
    if |groups| == 0 {
      TrailingStopsAscend(p, currentPos);
    } else {
      var bottom := groups[0].bottom * 100.0;
      GroupStopsAscend(groups[0], p, currentPos);
      SeparatedTail(groups);
      MaskStopsFromAscend(groups[1..], p, bottom);
      AscendingFromConcat(GroupStops(groups[0], p, currentPos), MaskStopsFrom(groups[1..], p, bottom), currentPos, bottom);
    }
  }

  /** The stops are in order and none lies before `lo`. */
  predicate AscendingFrom(s: seq<Stop>, lo: real)
  {
    Ascending(s) && (|s| > 0 ==> lo <= s[0].percent)
  }

  lemma AscendingFromConcat(a: seq<Stop>, b: seq<Stop>, lo: real, mid: real)
    requires AscendingFrom(a, lo) && |a| > 0 && a[|a| - 1].percent == mid && AscendingFrom(b, mid)
    ensures AscendingFrom(a + b, lo)
  {
    AscendingConcat(a, b);
    assert (a + b)[0] == a[0];
  }

  lemma SeparatedTail(groups: seq<Group>)
    requires |groups| > 0 && Separated(groups) && WellFormedGroups(groups)
    ensures Separated(groups[1..]) && WellFormedGroups(groups[1..])
    ensures |groups| > 1 ==> groups[0].bottom * 100.0 <= groups[1].top * 100.0
  {
    assert forall i :: 0 <= i < |groups| - 1 ==> groups[1..][i] == groups[i + 1];
  }

  lemma TrailingStopsAscend(p: real, currentPos: real)
    requires 0.0 <= p <= 1.0
    ensures AscendingFrom(MaskStopsFrom([], p, currentPos), currentPos)
  {
    if currentPos < 100.0 { GapStopsAscend(currentPos, 100.0, p); }
  }

  /** A group's stops run from the current position to the group's bottom in order. */
  lemma GroupStopsAscend(g: Group, p: real, currentPos: real)
    requires g.top <= g.bottom && 0.0 <= p <= 1.0 && currentPos <= g.top * 100.0
    ensures var s := GroupStops(g, p, currentPos);
            AscendingFrom(s, currentPos) && |s| > 0 && s[|s| - 1].percent == g.bottom * 100.0
  {
    var top, bottom := g.top * 100.0, g.bottom * 100.0;
    var own := [Stop(true, top), Stop(true, bottom)];
    if top > currentPos {
      GapStopsAscend(currentPos, top, p);
      AscendingConcat(GapStops(currentPos, top, p), own);
    }
  }

  /** For groups on the page, the mask's stop positions never go backwards. */
  lemma MaskStopsAscend(groups: seq<Group>, p: real)
    requires Separated(groups) && WellFormedGroups(groups) && 0.0 <= p <= 1.0
    requires |groups| > 0 ==> groups[0].top >= 0.0
    ensures Ascending(MaskStopsFrom(groups, p, 0.0))
  {
    MaskStopsFromAscend(groups, p, 0.0);
  }

  // ---------------------------------------------------------------- per page

  /** What the calculator stores for a page with annotations. */
  datatype PageCrop = PageCrop(
    visibleTop: real, visibleBottom: real, visibleHeight: real,
    groups: seq<Group>, clipTop: real, clipBottom: real, cropProgress: real,
    maskStops: Option<seq<Stop>>, maskStrength: Option<real>)

  /** The crop of one page, `None` for a page without spans (`hasHighlights` false). */
  /** What a page's crop holds for its spans sorted by top and a crop progress `p`. */
  predicate CropOfSpans(c: PageCrop, spans: seq<Span>, p: real)
  {
    c.cropProgress == p
    && c.visibleTop == VisibleTop(MinTop(spans), p)
    && c.visibleBottom == VisibleBottom(MaxBottom(spans), p)
    && c.visibleHeight == c.visibleBottom - c.visibleTop
    && c.clipTop == c.visibleTop * 100.0 && c.clipBottom == (1.0 - c.visibleBottom) * 100.0
    && c.groups == GroupsFrom(spans, None)
    && (c.maskStops.Some? <==> p > 0.0 && |c.groups| > 1)
    && (c.maskStops.Some? ==> c.maskStops.value == MaskStopsFrom(c.groups, p, 0.0) && c.maskStrength == Some(p))
    && (c.maskStops.None? ==> c.maskStrength.None?)
  }

  /** One page of `highlightBoundsPerPage`: no entry for a page without spans (`hasHighlights` false). */
  method ComputePageCrop(annotations: seq<Annotation>, filters: map<string, bool>, page: int,
                         isHighlightView: bool, cropZoom: real) returns (crop: Option<PageCrop>)
    ensures crop.None? <==> PageSpans(annotations, filters, page) == []
    ensures crop.Some? ==> CropOfSpans(crop.value, SortBy(PageSpans(annotations, filters, page), SpanTop),
                                       CropProgress(isHighlightView, cropZoom))
  {
    var unsorted := PageSpans(annotations, filters, page);
    if unsorted == [] {
      return None;
    }
    var spans := SortBy(unsorted, SpanTop);
    var groups := HighlightGroups(spans);
    var p := CropProgress(isHighlightView, cropZoom);
    var top := VisibleTop(MinTop(spans), p);
    var bottom := VisibleBottom(MaxBottom(spans), p);
    var mask: Option<seq<Stop>> := None;
    var strength: Option<real> := None;
    if p > 0.0 && |groups| > 0 {
      if |groups| > 1 {
        var stops := BuildMaskStops(groups, p);
        mask := Some(stops);
        strength := Some(p);
      }
    }
    var c := PageCrop(top, bottom, bottom - top, groups, top * 100.0, (1.0 - bottom) * 100.0, p, mask, strength);
    assert CropOfSpans(c, spans, p);
    crop := Some(c);
  }

  lemma MinTopBelow(a: seq<Span>, b: seq<Span>)
    requires forall x :: x in b ==> x in a
    ensures MinTop(a) <= MinTop(b)
  {
    if MinTop(b) != 1.0 {
      var j :| 0 <= j < |b| && MinTop(b) == b[j].top;
      assert b[j] in a;
      var i :| 0 <= i < |a| && a[i] == b[j];
    }
  }

  lemma MaxBottomAbove(a: seq<Span>, b: seq<Span>)
    requires forall x :: x in b ==> x in a
    ensures MaxBottom(b) <= MaxBottom(a)
  {
    if MaxBottom(b) != 0.0 {
      var j :| 0 <= j < |b| && MaxBottom(b) == b[j].bottom;
      assert b[j] in a;
      var i :| 0 <= i < |a| && a[i] == b[j];
    }
  }

  /** Sorting does not change the extent: the sorted spans have the same least top and greatest bottom. */
  lemma ExtentOfSorted(spans: seq<Span>)
    ensures MinTop(SortBy(spans, SpanTop)) == MinTop(spans)
    ensures MaxBottom(SortBy(spans, SpanTop)) == MaxBottom(spans)
  {
    var sorted := SortBy(spans, SpanTop);
    assert forall x :: x in sorted <==> x in multiset(sorted);
    assert forall x :: x in spans <==> x in multiset(spans);
    MinTopBelow(sorted, spans);
    MinTopBelow(spans, sorted);
    MaxBottomAbove(sorted, spans);
    MaxBottomAbove(spans, sorted);
  }

  // ---------------------------------------------------------------- average

  function SumProgress(ps: seq<real>): real
  {
    if |ps| == 0 then 0.0 else SumProgress(ps[..|ps| - 1]) + ps[|ps| - 1]
  }

  /** `avgCropProgress`: the mean crop progress of the pages with annotations, 0 for none. */
  function AvgCropProgress(ps: seq<real>): real
  {
    if |ps| > 0 then SumProgress(ps) / (|ps| as real) else 0.0
  }

  lemma {:induction false} SumOfEqual(ps: seq<real>, p: real)
    requires forall i :: 0 <= i < |ps| ==> ps[i] == p
    ensures SumProgress(ps) == (|ps| as real) * p
  {
    if |ps| > 0 {
      SumOfEqual(ps[..|ps| - 1], p);
      assert ((|ps| - 1) as real) * p + p == (|ps| as real) * p;
    }
  }

  /** Every page shares the same crop progress, so the average is that progress. */
  lemma AvgOfEqual(ps: seq<real>, p: real)
    requires |ps| > 0 && forall i :: 0 <= i < |ps| ==> ps[i] == p
    ensures AvgCropProgress(ps) == p
  {
    SumOfEqual(ps, p);
    var n := |ps| as real;
    assert n > 0.0;
    assert (n * p) / n == p;
  }

  // ---------------------------------------------------------------- as written: notes without a size

  /** A JavaScript number that may be `NaN`. */
  datatype JsNumber = NaN | Num(v: real)

  function JsAdd(a: JsNumber, b: JsNumber): JsNumber
  {
    if a.NaN? || b.NaN? then NaN else Num(a.v + b.v)
  }

  function JsMul(a: JsNumber, b: JsNumber): JsNumber
  {
    if a.NaN? || b.NaN? then NaN else Num(a.v * b.v)
  }

  /** `Math.max`: `NaN` as soon as one argument is `NaN`. */
  function JsMax(a: JsNumber, b: JsNumber): JsNumber
  {
    if a.NaN? || b.NaN? then NaN else Num(Max(a.v, b.v))
  }

  /** A missing property read as a number (`undefined` becomes `NaN` in arithmetic). */
  function FieldAsNumber(f: Option<real>): JsNumber
  {
    if f.Some? then Num(f.value) else NaN
  }

  /** As written: a position's bottom is `y + height`, `NaN` when the note carries no height. */
  function BoxBottomAsWritten(b: Box): JsNumber
  {
    JsAdd(Num(b.y), FieldAsNumber(b.height))
  }

  /** As written: `bounds.maxY` folded with `Math.max` over the bottoms. */
  function MaxBottomAsWritten(bottoms: seq<JsNumber>): JsNumber
  {
    if |bottoms| == 0 then Num(0.0) else JsMax(MaxBottomAsWritten(bottoms[..|bottoms| - 1]), bottoms[|bottoms| - 1])
  }

  /** As written: `visibleBottom = 1 - (1 - maxY) * cropProgress`. */
  function VisibleBottomAsWritten(maxY: JsNumber, p: real): JsNumber
  {
    JsAdd(Num(1.0), JsMul(JsMul(JsAdd(Num(1.0), JsMul(Num(-1.0), maxY)), Num(p)), Num(-1.0)))
  }

  lemma {:induction false} NaNBottomPoisonsExtent(bottoms: seq<JsNumber>, k: int)
    requires 0 <= k < |bottoms| && bottoms[k].NaN?
    ensures MaxBottomAsWritten(bottoms).NaN?
  {
    if k < |bottoms| - 1 {
      NaNBottomPoisonsExtent(bottoms[..|bottoms| - 1], k);
    }
  }

  /**
   * A page note placed with the comment tool has a position `{x, y}` without
   * width or height. As written, one such note makes the page's `maxY` and
   * `visibleBottom` `NaN` at every crop progress, even at zoom 1.
   */
  lemma NoteWithoutSizeBreaksCropAsWritten(bottoms: seq<JsNumber>, note: Box, p: real)
    requires note.height.None?
    ensures VisibleBottomAsWritten(MaxBottomAsWritten(bottoms + [BoxBottomAsWritten(note)]), p).NaN?
  {
    var all := bottoms + [BoxBottomAsWritten(note)];
    NaNBottomPoisonsExtent(all, |all| - 1);
  }

  /** Corrected: a missing size counts as 0, so the note's own point bounds the crop. */
  lemma NoteWithoutSizeBoundsCrop(note: Box, p: real)
    requires note.height.None? && 0.0 <= note.y <= 1.0 && 0.0 <= p <= 1.0
    ensures BoxSpan(note).bottom == note.y
    ensures note.y <= VisibleBottom(MaxBottom([BoxSpan(note)]), p) <= 1.0
  {
    assert [BoxSpan(note)][..0] == [];
    CropKeepsExtentVisible(0.0, note.y, p);
  }
}
