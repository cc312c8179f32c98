/**
 * The connector lines drawn from a region of a page to the card that was cut
 * or written from it, and the cubic S-curve that draws each one.
 *
 * Every element box comes from the page layout as a `ClientRect` in viewport
 * pixels; a `Layout` bundles those that the computation needs, with `None`
 * for an element that is not mounted.
 */
module Connectors {
  import opened Wrappers
  import opened WorkspaceTypes
  import opened WorkspaceUtils

  /** The measured boxes: the viewer deck, the workspace canvas, the scroll container, and each page. */
  datatype Layout = Layout(
    deck: Option<ClientRect>,
    workspace: Option<ClientRect>,
    container: Option<ClientRect>,
    pages: int -> Option<ClientRect>)

  /** What a card is linked to: a note or a clipping. */
  datatype Source = NoteSource(note: WorkspaceComment) | ClipSource(clip: Clipping)

  /** One line, in pixels relative to the viewer deck. */
  datatype Connector = Connector(from: Point, to: Point)

  function Bottom(r: ClientRect): real { r.top + r.height }

  /** `isPageVisible`: the page is mounted and meets the scroll container's vertical extent, edges included. */
  predicate PageVisible(layout: Layout, page: int)
  {
    layout.container.Some? && layout.pages(page).Some?
    && Bottom(layout.pages(page).value) >= layout.container.value.top
    && layout.pages(page).value.top <= Bottom(layout.container.value)
  }

  /** A page lying inside the container is visible; one wholly above or below it, or unmounted, is not. */
  lemma PageVisibility(layout: Layout, page: int)
    ensures layout.container.Some? && layout.pages(page).Some?
            && layout.container.value.top <= layout.pages(page).value.top
            && Bottom(layout.pages(page).value) <= Bottom(layout.container.value)
            && layout.pages(page).value.height >= 0.0
            ==> PageVisible(layout, page)
    ensures layout.container.Some? && layout.pages(page).Some?
            && (Bottom(layout.pages(page).value) < layout.container.value.top
                || layout.pages(page).value.top > Bottom(layout.container.value))
            ==> !PageVisible(layout, page)
    ensures layout.container.None? || layout.pages(page).None? ==> !PageVisible(layout, page)
  {
  }

  /** A position a fraction `f` of the way along a length `len` starting at `offset`. */
  function Along(offset: real, f: real, len: real): (v: real)
    ensures len >= 0.0 && 0.0 <= f <= 1.0 ==> offset <= v <= offset + len
  {
    ScaleWithin(f, len);
    offset + f * len
  }

  /** A fraction in [0, 1] of a non-negative length lies between 0 and that length. */
  lemma ScaleWithin(f: real, len: real)
    ensures len >= 0.0 && 0.0 <= f <= 1.0 ==> 0.0 <= f * len <= len
  {
    if len >= 0.0 && 0.0 <= f <= 1.0 {
      assert len - f * len == (1.0 - f) * len;
    }
  }

  /** The card's end of every connector: its normalised position on the workspace, relative to the deck. */
  function CardAnchor(item: WorkspaceItem, workspace: ClientRect, deck: ClientRect): (p: Point)
    ensures workspace.width >= 0.0 && 0.0 <= item.x <= 1.0 ==>
              workspace.left - deck.left <= p.x <= workspace.left - deck.left + workspace.width
    ensures workspace.height >= 0.0 && 0.0 <= item.y <= 1.0 ==>
              workspace.top - deck.top <= p.y <= workspace.top - deck.top + workspace.height
  {
    Point(Along(workspace.left - deck.left, item.x, workspace.width),
          Along(workspace.top - deck.top, item.y, workspace.height))
  }

  /** The centre of a source area, in page-normalised coordinates. */
  function Centre(r: Rect): Point { Point(r.x + r.width / 2.0, r.y + r.height / 2.0) }

  /** The page's end of a connector: the centre of the source area, placed on the measured page. */
  function PageAnchor(r: Rect, pageBox: ClientRect, deck: ClientRect): (p: Point)
    ensures pageBox.width >= 0.0 && 0.0 <= Centre(r).x <= 1.0 ==>
              pageBox.left - deck.left <= p.x <= pageBox.left - deck.left + pageBox.width
    ensures pageBox.height >= 0.0 && 0.0 <= Centre(r).y <= 1.0 ==>
              pageBox.top - deck.top <= p.y <= pageBox.top - deck.top + pageBox.height
  {
    Point(Along(pageBox.left - deck.left, Centre(r).x, pageBox.width),
          Along(pageBox.top - deck.top, Centre(r).y, pageBox.height))
  }

  /**
   * `buildConnectorForPage`: a connector exactly when there is a source area,
   * the page number is truthy (non-zero), and the page is visible.
   */
  function ConnectorForPage(sourceRect: Option<Rect>, page: int, layout: Layout, deck: ClientRect, to: Point): (c: Option<Connector>)
    ensures c.Some? <==> sourceRect.Some? && page != 0 && PageVisible(layout, page)
    ensures c.Some? ==> c.value.to == to
    ensures c.Some? ==> c.value.from == PageAnchor(sourceRect.value, layout.pages(page).value, deck)
  {
    if sourceRect.None? || page == 0 then None
    else if !PageVisible(layout, page) then None
    else Some(Connector(PageAnchor(sourceRect.value, layout.pages(page).value, deck), to))
  }

  /** The connector of one segment of a combined clip, on the segment's primary page. */
  function SegmentConnector(seg: Segment, layout: Layout, deck: ClientRect, to: Point): Option<Connector>
  {
    ConnectorForPage(seg.sourceRect, PrimaryPage(seg.sourcePage), layout, deck, to)
  }

  /** `segments.map(...).filter(Boolean)`. */
  function SegmentConnectors(segs: seq<Segment>, layout: Layout, deck: ClientRect, to: Point): (r: seq<Connector>)
    ensures |r| <= |segs|
  {
    if |segs| == 0 then []
    else
      var rest := SegmentConnectors(segs[1..], layout, deck, to);
      match SegmentConnector(segs[0], layout, deck, to)
      case None => rest
      case Some(c) => [c] + rest
  }

  /**
   * A combined clip gets one connector per segment whose page is visible and
   * none for the others: the list holds exactly the segments' connectors.
   */
  lemma SegmentConnectorsExact(segs: seq<Segment>, layout: Layout, deck: ClientRect, to: Point)
    ensures forall c :: c in SegmentConnectors(segs, layout, deck, to) <==>
              exists j :: 0 <= j < |segs| && SegmentConnector(segs[j], layout, deck, to) == Some(c)
    ensures (forall j :: 0 <= j < |segs| ==> SegmentConnector(segs[j], layout, deck, to).Some?)
              ==> |SegmentConnectors(segs, layout, deck, to)| == |segs|
  {
    forall c
      ensures c in SegmentConnectors(segs, layout, deck, to) <==>
              exists j :: 0 <= j < |segs| && SegmentConnector(segs[j], layout, deck, to) == Some(c)
    {
      if c in SegmentConnectors(segs, layout, deck, to) {
        ConnectorHasSegment(segs, layout, deck, to, c);
      }
      if exists j :: 0 <= j < |segs| && SegmentConnector(segs[j], layout, deck, to) == Some(c) {
        var j :| 0 <= j < |segs| && SegmentConnector(segs[j], layout, deck, to) == Some(c);
        SegmentConnectorListed(segs, layout, deck, to, j);
      }
    }
    if forall j :: 0 <= j < |segs| ==> SegmentConnector(segs[j], layout, deck, to).Some? {
      SegmentConnectorsAll(segs, layout, deck, to);
    }
  }

  /** Every listed connector comes from some segment. */
  lemma {:induction false} ConnectorHasSegment(segs: seq<Segment>, layout: Layout, deck: ClientRect, to: Point, c: Connector)
    requires c in SegmentConnectors(segs, layout, deck, to)
    ensures exists j :: 0 <= j < |segs| && SegmentConnector(segs[j], layout, deck, to) == Some(c)
  {
    if SegmentConnector(segs[0], layout, deck, to) != Some(c) {
      ConnectorHasSegment(segs[1..], layout, deck, to, c);
      var j :| 0 <= j < |segs[1..]| && SegmentConnector(segs[1..][j], layout, deck, to) == Some(c);
      assert SegmentConnector(segs[j + 1], layout, deck, to) == Some(c);
    }
  }

  /** Every segment's connector is listed. */
  lemma {:induction false} SegmentConnectorListed(segs: seq<Segment>, layout: Layout, deck: ClientRect, to: Point, j: int)
    requires 0 <= j < |segs| && SegmentConnector(segs[j], layout, deck, to).Some?
    ensures SegmentConnector(segs[j], layout, deck, to).value in SegmentConnectors(segs, layout, deck, to)
  {
    SegmentConnectorsUnfold(segs, layout, deck, to);
    if j > 0 {
      assert segs[1..][j - 1] == segs[j];
      SegmentConnectorListed(segs[1..], layout, deck, to, j - 1);
    }
  }

  /** One step of `SegmentConnectors`: the first segment's connector, if any, then the rest's. */
  lemma SegmentConnectorsUnfold(segs: seq<Segment>, layout: Layout, deck: ClientRect, to: Point)
    requires |segs| > 0
    ensures var first := SegmentConnector(segs[0], layout, deck, to);
            SegmentConnectors(segs, layout, deck, to)
            == (if first.Some? then [first.value] else []) + SegmentConnectors(segs[1..], layout, deck, to)
  {
  }

  /** With every segment on a visible page, there is one connector per segment. */
  lemma {:induction false} SegmentConnectorsAll(segs: seq<Segment>, layout: Layout, deck: ClientRect, to: Point)
    requires forall j :: 0 <= j < |segs| ==> SegmentConnector(segs[j], layout, deck, to).Some?
    ensures |SegmentConnectors(segs, layout, deck, to)| == |segs|
  {
    if |segs| > 0 {
      assert forall j :: 0 <= j < |segs[1..]| ==> segs[1..][j] == segs[j + 1];
      SegmentConnectorsAll(segs[1..], layout, deck, to);
    }
  }

  /** The segments of a source: a clip's `segments`, none for a note. */
  function SourceSegments(source: Source): seq<Segment>
  {
    match source
    case ClipSource(clip) => if clip.segments.Some? then clip.segments.value else []
    case NoteSource(_) => []
  }

  /** `String(source.sourcePage)`: a note has no `sourcePage`, which reads as "undefined". */
  function SourcePage(source: Source): string
  {
    match source
    case ClipSource(clip) => clip.sourcePage
    case NoteSource(_) => "undefined"
  }

  function SourceArea(source: Source): Option<Rect>
  {
    match source
    case ClipSource(clip) => clip.sourceRect
    case NoteSource(note) => Some(note.sourceRect)
  }

  /** `computeConnectorPoints`. */
  function ConnectorPoints(item: WorkspaceItem, source: Option<Source>, layout: Layout): seq<Connector>
  {
    if layout.deck.None? || layout.workspace.None? then []
    else
      var deck := layout.deck.value;
      var to := CardAnchor(item, layout.workspace.value, deck);
      var itemType := ItemType(item);
      if itemType == "comment" then
        if source.None? || !source.value.NoteSource? || source.value.note.pageNumber == 0 then []
        else match ConnectorForPage(Some(source.value.note.sourceRect), source.value.note.pageNumber, layout, deck, to)
          case None => []
          case Some(c) => [c]
      else if itemType == "clip" && source.Some? && |SourceSegments(source.value)| > 0 then
        SegmentConnectors(SourceSegments(source.value), layout, deck, to)
      else if itemType == "clip" && source.Some? then
        match ConnectorForPage(SourceArea(source.value), PrimaryPage(SourcePage(source.value)), layout, deck, to)
        case None => []
        case Some(c) => [c]
      else []
  }

  /**
   * Every connector of a card ends at the card's anchor and starts at the
   * centre of a source area on a page that is visible; there are none when the
   * deck or the workspace is not mounted, and none for a card with no source.
   */
  lemma ConnectorsEndAtCard(item: WorkspaceItem, source: Option<Source>, layout: Layout, c: Connector)
    requires c in ConnectorPoints(item, source, layout)
    ensures layout.deck.Some? && layout.workspace.Some? && source.Some?
    ensures c.to == CardAnchor(item, layout.workspace.value, layout.deck.value)
    ensures exists page: int, r: Rect ::
              page != 0 && PageVisible(layout, page) && c.from == PageAnchor(r, layout.pages(page).value, layout.deck.value)
  {
    var deck := layout.deck.value;
    var to := CardAnchor(item, layout.workspace.value, deck);
    if ItemType(item) == "comment" {
      var note := source.value.note;
      assert ConnectorForPage(Some(note.sourceRect), note.pageNumber, layout, deck, to) == Some(c);
      assert c.from == PageAnchor(note.sourceRect, layout.pages(note.pageNumber).value, deck);
    } else if |SourceSegments(source.value)| > 0 {
      var segs := SourceSegments(source.value);
      SegmentConnectorsExact(segs, layout, deck, to);
      var j :| 0 <= j < |segs| && SegmentConnector(segs[j], layout, deck, to) == Some(c);
      var page := PrimaryPage(segs[j].sourcePage);
      assert c.from == PageAnchor(segs[j].sourceRect.value, layout.pages(page).value, deck);
    } else {
      var page := PrimaryPage(SourcePage(source.value));
      assert ConnectorForPage(SourceArea(source.value), page, layout, deck, to) == Some(c);
      assert c.from == PageAnchor(SourceArea(source.value).value, layout.pages(page).value, deck);
    }
  }

  /** A note card has at most one connector, and one exactly when its note sits on a visible page. */
  lemma NoteConnector(item: WorkspaceItem, note: WorkspaceComment, layout: Layout)
    requires ItemType(item) == "comment" && layout.deck.Some? && layout.workspace.Some?
    ensures |ConnectorPoints(item, Some(NoteSource(note)), layout)| == 1 <==>
              note.pageNumber != 0 && PageVisible(layout, note.pageNumber)
    ensures |ConnectorPoints(item, Some(NoteSource(note)), layout)| <= 1
  {
  }

  /** A combined clip's card has at most one connector per segment, and one per segment when all their pages are visible. */
  lemma CombinedClipConnectors(item: WorkspaceItem, clip: Clipping, layout: Layout)
    requires ItemType(item) == "clip" && layout.deck.Some? && layout.workspace.Some?
    requires clip.segments.Some? && |clip.segments.value| > 0
    ensures |ConnectorPoints(item, Some(ClipSource(clip)), layout)| <= |clip.segments.value|
    ensures (forall j :: 0 <= j < |clip.segments.value| ==>
               clip.segments.value[j].sourceRect.Some? && PrimaryPage(clip.segments.value[j].sourcePage) != 0
               && PageVisible(layout, PrimaryPage(clip.segments.value[j].sourcePage)))
            ==> |ConnectorPoints(item, Some(ClipSource(clip)), layout)| == |clip.segments.value|
  {
    var deck := layout.deck.value;
    var to := CardAnchor(item, layout.workspace.value, deck);
    var segs := clip.segments.value;
    assert ConnectorPoints(item, Some(ClipSource(clip)), layout) == SegmentConnectors(segs, layout, deck, to);
    if forall j :: 0 <= j < |segs| ==>
         segs[j].sourceRect.Some? && PrimaryPage(segs[j].sourcePage) != 0 && PageVisible(layout, PrimaryPage(segs[j].sourcePage))
    {
      forall j | 0 <= j < |segs|
        ensures SegmentConnector(segs[j], layout, deck, to).Some?
      {
      }
      SegmentConnectorsAll(segs, layout, deck, to);
    }
  }

  // ------------------------------------------------------------ drawing

  /** The source a card is linked to: notes for note cards, clippings for the others, first by id. */
  function FindNote(notes: seq<WorkspaceComment>, id: string): (r: Option<WorkspaceComment>)
    ensures r.Some? ==> r.value in notes && r.value.id == id
    ensures r.None? ==> forall n :: n in notes ==> n.id != id
  {
    if |notes| == 0 then None
    else if notes[0].id == id then Some(notes[0])
    else FindNote(notes[1..], id)
  }

  function FindClip(clips: seq<Clipping>, id: string): (r: Option<Clipping>)
    ensures r.Some? ==> r.value in clips && r.value.id == id
    ensures r.None? ==> forall c :: c in clips ==> c.id != id
  {
    if |clips| == 0 then None
    else if clips[0].id == id then Some(clips[0])
    else FindClip(clips[1..], id)
  }

  function CardSource(item: WorkspaceItem, notes: seq<WorkspaceComment>, clips: seq<Clipping>): (s: Option<Source>)
    ensures ItemType(item) == "comment" ==> (s.Some? <==> exists n :: n in notes && n.id == ItemSourceId(item))
    ensures ItemType(item) != "comment" ==> (s.Some? <==> exists c :: c in clips && c.id == ItemSourceId(item))
    ensures s.Some? && ItemType(item) == "comment" ==> s.value.NoteSource? && s.value.note in notes
    ensures s.Some? && ItemType(item) != "comment" ==> s.value.ClipSource? && s.value.clip in clips
  {
    if ItemType(item) == "comment" then
      match FindNote(notes, ItemSourceId(item))
      case None => None
      case Some(n) => Some(NoteSource(n))
    else
      match FindClip(clips, ItemSourceId(item))
      case None => None
      case Some(c) => Some(ClipSource(c))
  }

  /** An SVG cubic path `M from C c1 c2 to`. */
  datatype CubicPath = CubicPath(start: Point, control1: Point, control2: Point, end: Point)

  /** The S-curve of one connector: both control points on the vertical through the midpoint. */
  function SCurve(c: Connector): (p: CubicPath)
    ensures p.start == c.from && p.end == c.to
    ensures p.control1.x == p.control2.x
    ensures p.control1.x - c.from.x == c.to.x - p.control1.x
    ensures p.control1.y == c.from.y && p.control2.y == c.to.y
  {
    var midX := (c.from.x + c.to.x) / 2.0;
    CubicPath(c.from, Point(midX, c.from.y), Point(midX, c.to.y), c.to)
  }

  function SCurves(cs: seq<Connector>): (ps: seq<CubicPath>)
    ensures |ps| == |cs|
    ensures forall i :: 0 <= i < |cs| ==> ps[i] == SCurve(cs[i])
  {
    if |cs| == 0 then [] else [SCurve(cs[0])] + SCurves(cs[1..])
  }

  /** The paths `ConnectorSvg` draws for one card: nothing without a source, else one S-curve per connector. */
  function CardPaths(item: WorkspaceItem, notes: seq<WorkspaceComment>, clips: seq<Clipping>, layout: Layout): (ps: seq<CubicPath>)
  {
    var source := CardSource(item, notes, clips);
    if source.None? then [] else SCurves(ConnectorPoints(item, source, layout))
  }

  /**
   * A card whose source cannot be found draws nothing; otherwise the card draws
   * exactly one path per connector, from the connector's start to the card.
   */
  lemma CardPathsFollowConnectors(item: WorkspaceItem, notes: seq<WorkspaceComment>, clips: seq<Clipping>, layout: Layout)
    ensures CardSource(item, notes, clips).None? ==> CardPaths(item, notes, clips, layout) == []
    ensures var cs := ConnectorPoints(item, CardSource(item, notes, clips), layout);
            CardSource(item, notes, clips).Some? ==>
              |CardPaths(item, notes, clips, layout)| == |cs|
              && forall i :: 0 <= i < |cs| ==>
                   CardPaths(item, notes, clips, layout)[i].start == cs[i].from
                   && CardPaths(item, notes, clips, layout)[i].end == cs[i].to
  {
  }

  /** The paths of every card, in card order. */
  function AllPaths(items: seq<WorkspaceItem>, notes: seq<WorkspaceComment>, clips: seq<Clipping>, layout: Layout): (ps: seq<seq<CubicPath>>)
    ensures |ps| == |items|
    ensures forall i :: 0 <= i < |items| ==> ps[i] == CardPaths(items[i], notes, clips, layout)
  {
    if |items| == 0 then [] else [CardPaths(items[0], notes, clips, layout)] + AllPaths(items[1..], notes, clips, layout)
  }
}
