/**
 * The document workspace controller: the state the workspace hook keeps
 * (annotations, bookmarks, clippings and their selection, the cards and notes
 * of the workspace canvas, the gesture in progress, the search results) and one
 * method per handler that changes it.
 *
 * React applies a state updater after the handler returns; the model applies
 * each one at once, in the order the handler issues them. An effect that runs
 * whenever `clippings` changes (the card sweep) is applied at the end of every
 * handler that changes `clippings`.
 *
 * The page overlays are measured by the caller: `Overlays` gives, for a page
 * number (the overlay key of every overlay is its page number), the overlay's
 * box and the pointer position normalised against it, or `None` when that
 * overlay is not mounted. Ids, timestamps and jitter come in a `Fresh` record;
 * prompt answers are `Option<string>` with `None` for a cancelled prompt.
 */
module DocumentWorkspace {
  import opened Wrappers
  import opened JsText
  import opened WorkspaceTypes
  import opened WorkspaceUtils
  import opened StableSort
  import opened HitTest
  import opened WorkspaceErase
  import opened DrawingGesture
  import opened WorkspaceCards
  import opened ClippingText
  import opened ClippingOps
  import opened WorkspaceSearch

  /** An overlay as measured when the event arrives. */
  datatype OverlayView = OverlayView(box: ClientRect, pointer: Point)

  type Overlays = int -> Option<OverlayView>

  /** The ids, and the jitter in [0, 0.01), a handler draws from the id generators, the clock and `Math.random`. */
  datatype Fresh = Fresh(annotationId: string, bookmarkId: string, clipId: string, itemId: string, noteId: string, jitter: real)

  /** A page note being dragged: its id, the grab offset and its page. */
  datatype NoteDrag = NoteDrag(id: string, offsetX: real, offsetY: real, page: int)

  datatype BookmarkDrag = BookmarkDrag(id: string, offsetX: real, offsetY: real)

  const ERASER_TOOL: string := WORKSPACE_ERASER_TOOL_ID
  const DEFAULT_COLOR: string := "#fbbf24"

  function DimensionsOf(box: ClientRect): Dimensions { Dimensions(box.width, box.height) }

  /** A clipping cut from page `n` reads back as page `n`. */
  lemma PageStringReadsBack(n: nat)
    ensures PrimaryPage(IntToString(n)) == n
  {
    PrimaryPageOfPageList(n, "");
  }

  /** One annotation under a note drag: the dragged note goes to the pointer less the grab offset, clamped to [0.02, 0.92]. */
  function MovedNote(a: Annotation, d: NoteDrag, p: Point): (r: Annotation)
    ensures r.pageNumber == a.pageNumber && r.id == a.id
    ensures a.id == d.id && a.pageNumber == d.page && a.kind == "comment" ==>
              r == a.(position := Some(Box(Clamp(p.x - d.offsetX, 0.02, 0.92), Clamp(p.y - d.offsetY, 0.02, 0.92), None, None)))
    ensures !(a.id == d.id && a.pageNumber == d.page && a.kind == "comment") ==> r == a
  {
    if a.id == d.id && a.pageNumber == d.page && a.kind == "comment"
    then a.(position := Some(Box(Clamp(p.x - d.offsetX, 0.02, 0.92), Clamp(p.y - d.offsetY, 0.02, 0.92), None, None)))
    else a
  }

  /** The page note drag: the dragged note, and only it, moves; every other annotation stays as it is. */
  function MoveNote(annotations: seq<Annotation>, d: NoteDrag, p: Point): (r: seq<Annotation>)
    ensures |r| == |annotations|
    ensures forall i :: 0 <= i < |r| ==> r[i] == MovedNote(annotations[i], d, p)
  {
    seq(|annotations|, i requires 0 <= i < |annotations| => MovedNote(annotations[i], d, p))
  }

  /** Moving a note keeps every page number, so a list in page order stays in page order. */
  lemma MoveNoteKeepsOrder(annotations: seq<Annotation>, d: NoteDrag, p: Point)
    requires SortedBy(annotations, PageKey)
    ensures SortedBy(MoveNote(annotations, d, p), PageKey)
    ensures SortBy(MoveNote(annotations, d, p), PageKey) == MoveNote(annotations, d, p)
  {
    var r := MoveNote(annotations, d, p);
    assert forall i :: 0 <= i < |r| ==> PageKey(r[i]) == PageKey(annotations[i]);
    SortByOfSorted(r, PageKey);
  }

  /** The bookmark drag: the dragged bookmark moves to the pointer less the grab offset, clamped to [0.05, 0.95]. */
  function MoveBookmark(bookmarks: seq<Bookmark>, d: BookmarkDrag, p: Point): (r: seq<Bookmark>)
    ensures |r| == |bookmarks|
    ensures forall i :: 0 <= i < |r| ==>
              if bookmarks[i].id == d.id
              then r[i] == bookmarks[i].(position := Point(Clamp(p.x - d.offsetX, 0.05, 0.95), Clamp(p.y - d.offsetY, 0.05, 0.95)))
              else r[i] == bookmarks[i]
  {
    if |bookmarks| == 0 then []
    else
      var b := bookmarks[0];
      var moved := if b.id == d.id then b.(position := Point(Clamp(p.x - d.offsetX, 0.05, 0.95), Clamp(p.y - d.offsetY, 0.05, 0.95))) else b;
      [moved] + MoveBookmark(bookmarks[1..], d, p)
  }

  function FindBookmark(bookmarks: seq<Bookmark>, id: string): (r: Option<Bookmark>)
    ensures r.Some? ==> r.value in bookmarks && r.value.id == id
    ensures r.None? ==> forall b :: b in bookmarks ==> b.id != id
  {
    if |bookmarks| == 0 then None
    else if bookmarks[0].id == id then Some(bookmarks[0])
    else FindBookmark(bookmarks[1..], id)
  }

  function RemoveBookmark(bookmarks: seq<Bookmark>, id: string): (r: seq<Bookmark>)
    ensures forall b :: b in r <==> b in bookmarks && b.id != id
  {
    if |bookmarks| == 0 then []
    else
      assert forall x :: x in bookmarks <==> x == bookmarks[0] || x in bookmarks[1..];
      (if bookmarks[0].id != id then [bookmarks[0]] else []) + RemoveBookmark(bookmarks[1..], id)
  }

  /** The selection's area for a workspace note: its box relative to the overlay, clamped so it stays on the page with at least 2% of size. */
  function SelectionArea(range: ClientRect, overlay: ClientRect): (r: Rect)
    requires overlay.width != 0.0 && overlay.height != 0.0
    ensures 0.0 <= r.x <= 0.98 && 0.0 <= r.y <= 0.98
    ensures 0.02 <= r.width <= 1.0 && 0.02 <= r.height <= 1.0
  {
    Rect(Clamp((range.left - overlay.left) / overlay.width, 0.0, 0.98),
         Clamp((range.top - overlay.top) / overlay.height, 0.0, 0.98),
         Clamp(range.width / overlay.width, 0.02, 1.0),
         Clamp(range.height / overlay.height, 0.02, 1.0))
  }

  /** The gesture `s` belongs to the overlay of `page` with key `key`. */
  predicate OnGesturePage(s: DrawingState, page: int, key: string)
  {
    s.page == page || s.overlayKey == key
  }

  /** Every card resolves: note cards always, clip cards while their clipping exists. */
  predicate AllResolve(items: seq<WorkspaceItem>, clippings: seq<Clipping>)
  {
    forall it :: it in items ==> Resolves(it, clippings)
  }

  /** After the sweep every card resolves. */
  lemma SweepResolves(items: seq<WorkspaceItem>, clippings: seq<Clipping>)
    ensures AllResolve(SweepCards(items, clippings), clippings)
  {
    SweepKeepsExactly(items, clippings);
  }

  /** The resolution of a card depends only on which clippings exist, not on their order. */
  lemma ResolvesUnderPermutation(items: seq<WorkspaceItem>, a: seq<Clipping>, b: seq<Clipping>)
    requires AllResolve(items, a) && multiset(a) == multiset(b)
    ensures AllResolve(items, b)
  {
    forall it | it in items
      ensures Resolves(it, b)
    {
      if ItemType(it) != "comment" {
        var c :| c in a && c.id == ItemSourceId(it);
        assert c in multiset(a);
      }
    }
  }

  /**
   * The clipping `handleClipSelection` cuts from the normalised text `text`:
   * from the selection's page, as a PDF clip; `None` when the text is empty or
   * the selection has no range or no page.
   */
  function SelectionClip(text: string, sel: TextSelection, area: Option<Rect>, clipId: string): (c: Option<Clipping>)
    ensures c.Some? <==> text != "" && sel.hasRange && sel.pageNumber != 0
    ensures c.Some? ==> c.value.id == clipId && c.value.content == text
                        && c.value.sourceRect == area && c.value.source == "PDF" && c.value.segments.None?
    ensures c.Some? && sel.pageNumber > 0 ==> PrimaryPage(c.value.sourcePage) == sel.pageNumber
  {
    if text == "" || !sel.hasRange || sel.pageNumber == 0 then None
    else
      assert sel.pageNumber > 0 ==> PrimaryPage(IntToString(sel.pageNumber)) == sel.pageNumber by {
        if sel.pageNumber > 0 { PageStringReadsBack(sel.pageNumber); }
      }
      Some(Clipping(clipId, text, IntToString(sel.pageNumber), area, "PDF", "", None))
  }

  /**
   * The area of the stored selection on its page's overlay, for a workspace
   * note: `None` without a selection, without the overlay, without a box for
   * the range or with an overlay of no size.
   */
  function SelectionNoteArea(sel: TextSelection, overlays: Overlays, range: Option<ClientRect>): (r: Option<Rect>)
    ensures r.Some? <==> HasSelection(sel) && overlays(sel.pageNumber).Some? && range.Some?
                         && overlays(sel.pageNumber).value.box.width != 0.0 && overlays(sel.pageNumber).value.box.height != 0.0
    ensures r.Some? ==> r.value == SelectionArea(range.value, overlays(sel.pageNumber).value.box)
  {
    if !HasSelection(sel) then None
    else
      var overlay := overlays(sel.pageNumber);
      if overlay.None? || range.None? || overlay.value.box.width == 0.0 || overlay.value.box.height == 0.0 then None
      else Some(SelectionArea(range.value, overlay.value.box))
  }

  /** The overlay a bookmark drag reads: this page's, else the one of the dragged bookmark's page. */
  function BookmarkOverlay(overlays: Overlays, page: int, bookmarks: seq<Bookmark>, id: string): (r: Option<OverlayView>)
    ensures overlays(page).Some? ==> r == overlays(page)
    ensures overlays(page).None? && r.Some? ==> exists b :: b in bookmarks && b.id == id && r == overlays(b.pageNumber)
    ensures (forall b :: b in bookmarks ==> b.id != id) ==> r == overlays(page)
  {
    if overlays(page).Some? then overlays(page)
    else
      var b := FindBookmark(bookmarks, id);
      if b.None? then None else overlays(b.value.pageNumber)
  }

  /** The page note the comment tool places: on the selection's page at its centre when there is one, else at the pointer. */
  function NoteAt(sel: TextSelection, centre: Option<Point>, page: int, p: Point, id: string, color: string, content: string): (a: Annotation)
    ensures a.kind == "comment" && a.content == content && a.color == color
    ensures HasSelection(sel) ==> a.pageNumber == sel.pageNumber
    ensures !HasSelection(sel) ==> a.pageNumber == page
    ensures a.linkedText.Some? <==> HasSelection(sel) && centre.Some?
    ensures a.linkedText.Some? ==> a.linkedText.value == sel.text
  {
    var placed := NotePlacement(sel, centre, page, p);
    PageNote(id, placed.0, color, content, placed.2, placed.1.x, placed.1.y)
  }

  /** The workspace note a stroke drawn in comment mode opens: on its bounding box, unless the prompt is cancelled or blank. */
  function SketchNote(a: Annotation, commentMode: bool, answer: Option<string>, noteId: string, color: string): (n: Option<WorkspaceComment>)
    ensures n.Some? <==> a.kind == "freehand" && commentMode && BoundingRect(a.points).Some? && NoteBody(answer).Some?
    ensures n.Some? ==> n.value.sourceRect == BoundingRect(a.points).value && n.value.pageNumber == a.pageNumber
                        && n.value.content == NoteBody(answer).value && n.value.quoteText == "Freehand sketch"
                        && n.value.sourceType == "freehand"
  {
    if a.kind == "freehand" && commentMode && BoundingRect(a.points).Some? && NoteBody(answer).Some?
    then Some(WorkspaceComment(noteId, NoteBody(answer).value, "Freehand sketch", a.pageNumber, BoundingRect(a.points).value, "freehand", color))
    else None
  }

  /**
   * The annotation a text tool makes from the selection: none without a
   * measured, non-empty overlay, and otherwise the text annotation of the
   * selection's measurable rectangles.
   */
  function LineAnnotationFor(kind: string, id: string, color: string, sel: TextSelection,
                             rects: seq<ClientRect>, canvas: Option<ClientRect>): (a: Option<Annotation>)
    requires kind == "underline" || kind == "strike" || kind == "textHighlight"
    ensures a.Some? <==> canvas.Some? && canvas.value.width != 0.0 && canvas.value.height != 0.0
                         && HasSelection(sel) && |Measurable(rects)| > 0
    ensures a.Some? ==> a.value.pageNumber == sel.pageNumber
  {
    if canvas.Some? && canvas.value.width != 0.0 && canvas.value.height != 0.0
    then TextAnnotation(kind, id, color, sel, rects, canvas.value)
    else None
  }

  class WorkspaceController {
    var annotations: seq<Annotation>
    var bookmarks: seq<Bookmark>
    var clippings: seq<Clipping>
    var selectedClippings: seq<string>
    var workspaceItems: seq<WorkspaceItem>
    var workspaceComments: seq<WorkspaceComment>
    var drawingState: Option<DrawingState>
    var searchTerm: string
    var searchResults: seq<SearchMatch>
    var activeSearchResultIndex: int
    var numPages: nat
    var primaryPage: int
    var activeTool: string
    var activeColor: string
    var activeBrushSize: real
    var activeBrushOpacity: real
    var freehandMode: string
    var isPressureEnabled: bool
    var isFreehandPaletteOpen: bool
    var isFreehandCommentMode: bool
    var selection: TextSelection
    var draggingNote: Option<NoteDrag>
    var draggingBookmark: Option<BookmarkDrag>

    /**
     * The invariant every handler keeps: annotations in page order, the active
     * search index on a result or -1, every card resolving, and a freehand
     * gesture holding one point (two in straight mode).
     */
    ghost predicate Valid()
      reads this
    {
      SortedBy(annotations, PageKey)
      && -1 <= activeSearchResultIndex < |searchResults|
      && AllResolve(workspaceItems, clippings)
      && (drawingState.Some? ==> StrokeShape(drawingState.value))
    }

    /** The initial state of the hook. */
    constructor ()
      ensures Valid()
      ensures annotations == [] && bookmarks == [] && clippings == [] && selectedClippings == []
      ensures workspaceItems == [] && workspaceComments == [] && drawingState.None?
      ensures searchTerm == "" && searchResults == [] && activeSearchResultIndex == -1
      ensures activeTool == "select" && activeColor == DEFAULT_COLOR && primaryPage == 1 && numPages == 0
      ensures activeBrushSize == DEFAULT_BRUSH_SIZE && activeBrushOpacity == DEFAULT_BRUSH_OPACITY
      ensures freehandMode == "straight" && isPressureEnabled && !isFreehandPaletteOpen && !isFreehandCommentMode
      ensures selection == NO_SELECTION && draggingNote.None? && draggingBookmark.None?
    {
      annotations := [];
      bookmarks := [];
      clippings := [];
      selectedClippings := [];
      workspaceItems := [];
      workspaceComments := [];
      drawingState := None;
      searchTerm := "";
      searchResults := [];
      activeSearchResultIndex := -1;
      numPages := 0;
      primaryPage := 1;
      activeTool := "select";
      activeColor := DEFAULT_COLOR;
      activeBrushSize := DEFAULT_BRUSH_SIZE;
      activeBrushOpacity := DEFAULT_BRUSH_OPACITY;
      freehandMode := "straight";
      isPressureEnabled := true;
      isFreehandPaletteOpen := false;
      isFreehandCommentMode := false;
      selection := NO_SELECTION;
      draggingNote := None;
      draggingBookmark := None;
    }

    /** `updateAnnotations(prev => [...prev, a])`: append, then sort by page (stably). */
    method AddAnnotation(a: Annotation)
      requires Valid()
      modifies this`annotations
      ensures Valid()
      ensures annotations == SortBy(old(annotations) + [a], PageKey)
      ensures multiset(annotations) == multiset(old(annotations)) + multiset{a}
    {
      annotations := SortBy(annotations + [a], PageKey);
      SortBySorted(old(annotations) + [a], PageKey);
    }

    /**
     * `eraseAnnotationsAtPoint`: nothing for page 0; otherwise the first
     * annotation on the page that the point touches is taken out.
     */
    method EraseAt(page: int, p: Point, box: ClientRect) returns (didErase: bool)
      requires Valid()
      modifies this`annotations
      ensures Valid()
      ensures page == 0 ==> annotations == old(annotations) && !didErase
      ensures page != 0 ==> annotations == Erased(old(annotations), page, p, Some(DimensionsOf(box)))
      ensures page != 0 ==> (didErase <==> FirstHit(old(annotations), page, p, Some(DimensionsOf(box))).Some?)
    {
      if page == 0 {
        return false;
      }
      EraseKeepsPageOrder(annotations, page, p, Some(DimensionsOf(box)));
      annotations, didErase := EraseFirstHit(annotations, page, p, Some(DimensionsOf(box)));
    }

    /** A new workspace note in front of the others, with its card in front of the other cards. */
    method AddNote(note: WorkspaceComment, itemId: string, jitter: real)
      requires Valid()
      modifies this`workspaceComments, this`workspaceItems
      ensures Valid()
      ensures workspaceComments == [note] + old(workspaceComments)
      ensures workspaceItems == AddNoteCard(old(workspaceItems), note.id, itemId, jitter)
    {
      workspaceComments := [note] + workspaceComments;
      workspaceItems := AddNoteCard(workspaceItems, note.id, itemId, jitter);
      assert forall it :: it in workspaceItems ==> it == workspaceItems[0] || it in workspaceItems[1..];
    }

    /**
     * `handleCreateWorkspaceComment`: nothing without an area or with a blank
     * or cancelled answer; otherwise the trimmed answer becomes a note in front
     * of the others with a card of its own, and, when asked, a linked page note.
     */
    method CreateWorkspaceComment(sourceRect: Option<Rect>, page: int, sourceType: string, quoteText: string,
                                  createAnnotation: bool, answer: Option<string>, gen: Fresh) returns (created: bool)
      requires Valid()
      modifies this`workspaceComments, this`workspaceItems, this`annotations
      ensures Valid()
      ensures created <==> sourceRect.Some? && NoteBody(answer).Some?
      ensures !created ==> workspaceComments == old(workspaceComments) && workspaceItems == old(workspaceItems)
                           && annotations == old(annotations)
      ensures created ==>
                var note := WorkspaceComment(gen.noteId, NoteBody(answer).value, quoteText, page, sourceRect.value, sourceType, activeColor);
                workspaceComments == [note] + old(workspaceComments)
                && workspaceItems == AddNoteCard(old(workspaceItems), gen.noteId, gen.itemId, gen.jitter)
                && annotations == (if createAnnotation
                                   then SortBy(old(annotations) + [LinkedPageNote(gen.annotationId, page, activeColor, note.content, quoteText, sourceRect.value)], PageKey)
                                   else old(annotations))
    {
      if sourceRect.None? {
        return false;
      }
      var body := NoteBody(answer);
      if body.None? {
        return false;
      }
      var note := WorkspaceComment(gen.noteId, body.value, quoteText, page, sourceRect.value, sourceType, activeColor);
      AddNote(note, gen.itemId, gen.jitter);
      if createAnnotation {
        AddAnnotation(LinkedPageNote(gen.annotationId, page, activeColor, body.value, quoteText, sourceRect.value));
      }
      created := true;
    }

    /**
     * `handleCreateCommentFromSelection`: with a stored selection whose overlay
     * is mounted and whose range has a measurable box, a workspace note on the
     * selection's area quoting the selected text; the selection is cleared
     * when the note was created.
     */
    method CommentFromSelection(overlays: Overlays, range: Option<ClientRect>, answer: Option<string>, gen: Fresh)
      returns (created: bool)
      requires Valid()
      modifies this`workspaceComments, this`workspaceItems, this`annotations, this`selection
      ensures Valid()
      ensures var area := SelectionNoteArea(old(selection), overlays, range);
              (created <==> area.Some? && NoteBody(answer).Some?)
              && (created ==>
                    workspaceComments == [WorkspaceComment(gen.noteId, NoteBody(answer).value, old(selection).text, old(selection).pageNumber,
                                                           area.value, "text", activeColor)] + old(workspaceComments)
                    && workspaceItems == AddNoteCard(old(workspaceItems), gen.noteId, gen.itemId, gen.jitter)
                    && selection == NO_SELECTION)
      ensures !created ==> workspaceComments == old(workspaceComments) && workspaceItems == old(workspaceItems)
                           && selection == old(selection)
      ensures annotations == old(annotations)
    {
      var sel := selection;
      var area := SelectionNoteArea(sel, overlays, range);
      if area.None? {
        return false;
      }
      created := CreateWorkspaceComment(area, sel.pageNumber, "text", sel.text, false, answer, gen);
      if created {
        selection := NO_SELECTION;
      }
    }

    /**
     * `applyLineAnnotation` for an underline, a strike-through or a text
     * highlight: with a selection and at least one measurable rectangle, one
     * annotation on the selection's page, after which the selection is cleared.
     * `rects` are the selection's client rectangles and `canvas` the measured
     * overlay of the target page.
     */
    method ApplyLineAnnotation(kind: string, rects: seq<ClientRect>, canvas: Option<ClientRect>, gen: Fresh)
      requires Valid()
      requires kind == "underline" || kind == "strike" || kind == "textHighlight"
      modifies this`annotations, this`selection
      ensures Valid()
      ensures var made := LineAnnotationFor(kind, gen.annotationId, activeColor, old(selection), rects, canvas);
              (made.Some? ==> annotations == SortBy(old(annotations) + [made.value], PageKey) && selection == NO_SELECTION)
              && (made.None? ==> annotations == old(annotations) && selection == old(selection))
    {
      if canvas.None? || canvas.value.width == 0.0 || canvas.value.height == 0.0 {
        return;
      }
      var made := TextAnnotation(kind, gen.annotationId, activeColor, selection, rects, canvas.value);
      CommitLineAnnotation(made);
    }

    /** A made line annotation is added and clears the selection; none changes nothing. */
    method CommitLineAnnotation(made: Option<Annotation>)
      requires Valid()
      modifies this`annotations, this`selection
      ensures Valid()
      ensures made.Some? ==> annotations == SortBy(old(annotations) + [made.value], PageKey) && selection == NO_SELECTION
      ensures made.None? ==> annotations == old(annotations) && selection == old(selection)
    {
      if made.Some? {
        AddAnnotation(made.value);
        selection := NO_SELECTION;
      }
    }

    /**
     * `handleToolSelect`: the freehand button toggles the palette when freehand
     * is already active and otherwise activates freehand with the palette
     * closed; every other button closes the palette; the three text tools apply
     * to the current selection and leave the active tool as it is; any other
     * id becomes the active tool.
     */
    method SelectTool(toolId: string, rects: seq<ClientRect>, canvas: Option<ClientRect>, gen: Fresh)
      requires Valid()
      modifies this`activeTool, this`isFreehandPaletteOpen, this`annotations, this`selection
      ensures Valid()
      ensures toolId == "freehand" ==> activeTool == "freehand" && annotations == old(annotations) && selection == old(selection)
      ensures toolId == "freehand" && old(activeTool) == "freehand" ==> isFreehandPaletteOpen == !old(isFreehandPaletteOpen)
      ensures toolId == "freehand" && old(activeTool) != "freehand" ==> !isFreehandPaletteOpen
      ensures toolId != "freehand" ==> !isFreehandPaletteOpen
      ensures (toolId == "underline" || toolId == "strike" || toolId == "textHighlight") ==>
                activeTool == old(activeTool) &&
                var made := LineAnnotationFor(toolId, gen.annotationId, activeColor, old(selection), rects, canvas);
                (made.Some? ==> annotations == SortBy(old(annotations) + [made.value], PageKey) && selection == NO_SELECTION)
                && (made.None? ==> annotations == old(annotations) && selection == old(selection))
      ensures !(toolId == "underline" || toolId == "strike" || toolId == "textHighlight") ==>
                activeTool == toolId && annotations == old(annotations) && selection == old(selection)
    {
      if toolId == "freehand" {
        if activeTool == "freehand" {
          isFreehandPaletteOpen := !isFreehandPaletteOpen;
        } else {
          activeTool := "freehand";
          isFreehandPaletteOpen := false;
        }
        return;
      }
      isFreehandPaletteOpen := false;
      if toolId == "underline" || toolId == "strike" || toolId == "textHighlight" {
        ApplyLineAnnotation(toolId, rects, canvas, gen);
        return;
      }
      activeTool := toolId;
    }

    /**
     * `handlePointerDown` on the overlay of `page`: the eraser erases under the
     * pointer and starts an erasing gesture; the bookmark tool adds a bookmark
     * and returns to select; a drawing tool starts its gesture; the comment
     * tool adds a page note (placed by `NotePlacement`) unless the answer is
     * empty or cancelled. `centre` is the selection's first rectangle's centre
     * on its page's overlay, `None` when it cannot be measured.
     */
    method PointerDown(page: int, key: string, overlays: Overlays, reading: Option<real>,
                       answer: Option<string>, centre: Option<Point>, gen: Fresh)
      requires Valid()
      modifies this`annotations, this`drawingState, this`bookmarks, this`activeTool, this`selection
      ensures Valid()
      ensures overlays(page).None? ==>
                annotations == old(annotations) && drawingState == old(drawingState) && bookmarks == old(bookmarks)
                && activeTool == old(activeTool) && selection == old(selection)
      ensures overlays(page).Some? && old(activeTool) == ERASER_TOOL ==>
                var ov := overlays(page).value;
                drawingState == Some(Erasing(page, key)) && bookmarks == old(bookmarks) && activeTool == old(activeTool)
                && annotations == (if page == 0 then old(annotations) else Erased(old(annotations), page, ov.pointer, Some(DimensionsOf(ov.box))))
      ensures overlays(page).Some? && old(activeTool) == "bookmark" ==>
                bookmarks == old(bookmarks) + [NewBookmark(gen.bookmarkId, page, overlays(page).value.pointer, activeColor, answer)]
                && activeTool == "select" && drawingState == old(drawingState) && annotations == old(annotations)
      ensures overlays(page).Some? && IsDrawingTool(old(activeTool)) ==>
                drawingState == Some(StartGesture(old(activeTool), page, key, overlays(page).value.pointer,
                                                  Brush(activeBrushSize, freehandMode, isPressureEnabled, activeBrushOpacity), reading))
                && annotations == old(annotations) && bookmarks == old(bookmarks) && activeTool == old(activeTool)
      ensures overlays(page).Some? && old(activeTool) == "comment" ==>
                drawingState == old(drawingState) && bookmarks == old(bookmarks)
                && (answer.None? || answer.value == "" ==> annotations == old(annotations) && activeTool == old(activeTool) && selection == old(selection))
                && (answer.Some? && answer.value != "" ==>
                      annotations == SortBy(old(annotations) + [NoteAt(old(selection), centre, page, overlays(page).value.pointer, gen.annotationId, activeColor, answer.value)], PageKey)
                      && activeTool == "select" && selection == NO_SELECTION)
      ensures overlays(page).Some? && !(old(activeTool) in {ERASER_TOOL, "bookmark", "comment"} || IsDrawingTool(old(activeTool))) ==>
                annotations == old(annotations) && drawingState == old(drawingState) && bookmarks == old(bookmarks)
                && activeTool == old(activeTool) && selection == old(selection)
    {
      var overlay := overlays(page);
      if overlay.None? {
        return;
      }
      var ov := overlay.value;
      if activeTool == ERASER_TOOL {
        StartErasing(page, key, ov);
      } else if activeTool == "bookmark" {
        DropBookmark(page, ov.pointer, answer, gen);
      } else if IsDrawingTool(activeTool) {
        StartDrawing(page, key, ov.pointer, reading);
      } else if activeTool == "comment" {
        PlacePageNote(page, ov.pointer, answer, centre, gen);
      }
    }

    /** The bookmark tool's pointer-down: a bookmark at the pointer, then back to the select tool. */
    method DropBookmark(page: int, pointer: Point, answer: Option<string>, gen: Fresh)
      requires Valid()
      modifies this`bookmarks, this`activeTool
      ensures Valid()
      ensures bookmarks == old(bookmarks) + [NewBookmark(gen.bookmarkId, page, pointer, activeColor, answer)]
      ensures activeTool == "select"
    {
      bookmarks := bookmarks + [NewBookmark(gen.bookmarkId, page, pointer, activeColor, answer)];
      activeTool := "select";
    }

    /** The note tool's pointer-down: a page note when the prompt gave text, otherwise nothing. */
    method PlacePageNote(page: int, pointer: Point, answer: Option<string>, centre: Option<Point>, gen: Fresh)
      requires Valid()
      modifies this`annotations, this`activeTool, this`selection
      ensures Valid()
      ensures answer.None? || answer.value == "" ==>
                annotations == old(annotations) && activeTool == old(activeTool) && selection == old(selection)
      ensures answer.Some? && answer.value != "" ==>
                annotations == SortBy(old(annotations) + [NoteAt(old(selection), centre, page, pointer, gen.annotationId, activeColor, answer.value)], PageKey)
                && activeTool == "select" && selection == NO_SELECTION
    {
      if answer.Some? && answer.value != "" {
        AddPageNote(NoteAt(selection, centre, page, pointer, gen.annotationId, activeColor, answer.value));
      }
    }

    /** The eraser's pointer-down: erase under the pointer and start an erasing gesture. */
    method StartErasing(page: int, key: string, ov: OverlayView)
      requires Valid()
      modifies this`annotations, this`drawingState
      ensures Valid()
      ensures drawingState == Some(Erasing(page, key))
      ensures annotations == (if page == 0 then old(annotations) else Erased(old(annotations), page, ov.pointer, Some(DimensionsOf(ov.box))))
    {
      var _ := EraseAt(page, ov.pointer, ov.box);
      drawingState := Some(Erasing(page, key));
    }

    /** A drawing tool's pointer-down: the gesture starts with the current brush. */
    method StartDrawing(page: int, key: string, p: Point, reading: Option<real>)
      requires Valid() && IsDrawingTool(activeTool)
      modifies this`drawingState
      ensures Valid()
      ensures drawingState == Some(StartGesture(activeTool, page, key, p, Brush(activeBrushSize, freehandMode, isPressureEnabled, activeBrushOpacity), reading))
    {
      drawingState := Some(StartGesture(activeTool, page, key, p, Brush(activeBrushSize, freehandMode, isPressureEnabled, activeBrushOpacity), reading));
    }

    /** The comment tool's pointer-down once answered: the note is added, the selection cleared and the tool returns to select. */
    method AddPageNote(a: Annotation)
      requires Valid()
      modifies this`annotations, this`selection, this`activeTool
      ensures Valid()
      ensures annotations == SortBy(old(annotations) + [a], PageKey)
      ensures selection == NO_SELECTION && activeTool == "select"
    {
      selection := NO_SELECTION;
      activeTool := "select";
      AddAnnotation(a);
    }

    /**
     * `handlePointerMove`: a dragged note or bookmark follows the pointer; an
     * erasing gesture erases under it; a drawing gesture on this overlay takes
     * the move.
     */
    method PointerMove(page: int, key: string, overlays: Overlays, reading: Option<real>)
      requires Valid()
      modifies this`annotations, this`bookmarks, this`drawingState
      ensures Valid()
      ensures old(draggingNote).Some? ==>
                var ov := Coalesce(overlays(page), overlays(old(draggingNote).value.page));
                bookmarks == old(bookmarks) && drawingState == old(drawingState)
                && annotations == (if overlays(page).None? && overlays(old(draggingNote).value.page).None? then old(annotations)
                                   else MoveNote(old(annotations), old(draggingNote).value, Coalesce(overlays(page), overlays(old(draggingNote).value.page)).value.pointer))
      ensures old(draggingNote).None? && old(draggingBookmark).Some? ==>
                var ov := BookmarkOverlay(overlays, page, old(bookmarks), old(draggingBookmark).value.id);
                annotations == old(annotations) && drawingState == old(drawingState)
                && bookmarks == (if ov.Some? then MoveBookmark(old(bookmarks), old(draggingBookmark).value, ov.value.pointer) else old(bookmarks))
      ensures old(draggingNote).None? && old(draggingBookmark).None? && old(drawingState).Some? && old(drawingState).value.Erasing?
              && OnGesturePage(old(drawingState).value, page, key) ==>
                var s := old(drawingState).value;
                drawingState == old(drawingState) && bookmarks == old(bookmarks)
                && (overlays(page).None? && overlays(s.page).None? ==> annotations == old(annotations))
                && (overlays(page).Some? || overlays(s.page).Some? ==>
                      var ov := Coalesce(overlays(page), overlays(s.page)).value;
                      annotations == (if s.page == 0 then old(annotations) else Erased(old(annotations), s.page, ov.pointer, Some(DimensionsOf(ov.box)))))
      ensures old(draggingNote).None? && old(draggingBookmark).None? &&
              !(old(drawingState).Some? && old(drawingState).value.Erasing? && OnGesturePage(old(drawingState).value, page, key)) ==>
                annotations == old(annotations) && bookmarks == old(bookmarks)
                && drawingState == (if overlays(page).Some? && old(drawingState).Some? && OnGesturePage(old(drawingState).value, page, key)
                                    then Some(MoveGesture(old(drawingState).value, Move(overlays(page).value.pointer, reading)))
                                    else old(drawingState))
    {
      if draggingNote.Some? {
        var d := draggingNote.value;
        var ov := Coalesce(overlays(page), overlays(d.page));
        if ov.None? {
          return;
        }
        MoveNoteKeepsOrder(annotations, d, ov.value.pointer);
        annotations := SortBy(MoveNote(annotations, d, ov.value.pointer), PageKey);
        return;
      }
      if draggingBookmark.Some? {
        var d := draggingBookmark.value;
        var ov := BookmarkOverlay(overlays, page, bookmarks, d.id);
        if ov.None? {
          return;
        }
        bookmarks := MoveBookmark(bookmarks, d, ov.value.pointer);
        return;
      }
      if drawingState.Some? && drawingState.value.Erasing? && OnGesturePage(drawingState.value, page, key) {
        var s := drawingState.value;
        var ov := Coalesce(overlays(page), overlays(s.page));
        if ov.None? {
          return;
        }
        var _ := EraseAt(s.page, ov.value.pointer, ov.value.box);
        return;
      }
      if overlays(page).None? {
        return;
      }
      if drawingState.None? || !OnGesturePage(drawingState.value, page, key) {
        return;
      }
      var next := MoveGesture(drawingState.value, Move(overlays(page).value.pointer, reading));
      MovesKeepStrokeShape(drawingState.value, [Move(overlays(page).value.pointer, reading)]);
      assert Replay(drawingState.value, [Move(overlays(page).value.pointer, reading)]) == next;
      drawingState := Some(next);
    }

    /**
     * A new clipping cut from `page` goes in front of the others and the
     * selection is emptied; `addClipToWorkspace` gives it a card at the page's
     * share of the document, and the sweep runs on the new clippings.
     */
    method AddClipping(clip: Clipping, page: int, gen: Fresh)
      requires Valid()
      modifies this`clippings, this`selectedClippings, this`workspaceItems
      ensures Valid()
      ensures clippings == [clip] + old(clippings) && selectedClippings == []
      ensures workspaceItems == SweepCards(AddClipCard(old(workspaceItems), clip.id, gen.itemId, PageShareY(page, numPages), gen.jitter), clippings)
    {
      clippings := [clip] + clippings;
      selectedClippings := [];
      var items := AddClipCard(workspaceItems, clip.id, gen.itemId, PageShareY(page, numPages), gen.jitter);
      SweepResolves(items, clippings);
      workspaceItems := SweepCards(items, clippings);
    }

    /**
     * `handleExtractClipFromArea` once the recogniser has answered: the text
     * becomes an OCR clipping in front of the others with a card of its own,
     * even when it is empty; `None` (no rectangle or page, or the recogniser
     * failed) changes nothing.
     */
    method AddExtractedClip(rect: Rect, page: int, text: Option<string>, gen: Fresh)
      requires Valid()
      modifies this`clippings, this`selectedClippings, this`activeTool, this`workspaceItems
      ensures Valid()
      ensures ClipApplied(rect, page, text, gen, old(annotations), old(clippings), old(workspaceItems), old(workspaceComments),
                          old(selectedClippings), old(activeTool))
    {
      if text.None? {
        return;
      }
      AddClipping(Clipping(gen.clipId, text.value, IntToString(page), Some(rect), "OCR", "", None), page, gen);
      activeTool := "select";
    }

    /**
     * `finalizeDrawing` of the gesture released at `end`: the gesture ends;
     * a committed highlight or stroke is added; a clip area goes to the
     * recogniser (its answer is `ocrText`); a stroke drawn in comment mode also
     * opens a workspace note on the stroke's bounding box.
     */
    method FinalizeDrawing(end: Point, ocrText: Option<string>, answer: Option<string>, gen: Fresh)
      requires Valid()
      modifies this`drawingState, this`annotations, this`clippings, this`selectedClippings, this`activeTool,
               this`workspaceItems, this`workspaceComments
      ensures Valid()
      ensures drawingState.None?
      ensures old(drawingState).None? ==> ContentUnchanged()
      ensures old(drawingState).Some? ==>
                OutcomeApplied(Finalize(old(drawingState).value, end, gen.annotationId, activeColor, activeBrushSize),
                               ocrText, answer, gen, old(annotations), old(clippings), old(workspaceItems), old(workspaceComments),
                               old(selectedClippings), old(activeTool))
    {
      if drawingState.None? {
        return;
      }
      var s, color, size := drawingState.value, activeColor, activeBrushSize;
      var o := Finalize(s, end, gen.annotationId, color, size);
      drawingState := None;
      ApplyOutcome(o, ocrText, answer, gen);
      assert activeColor == color && activeBrushSize == size;
    }

    /** The annotations, clippings, cards, notes, selection and tool are as they were. */
    twostate predicate ContentUnchanged()
      reads this
    {
      annotations == old(annotations) && clippings == old(clippings) && workspaceItems == old(workspaceItems)
      && workspaceComments == old(workspaceComments) && selectedClippings == old(selectedClippings)
      && activeTool == old(activeTool)
    }

    /**
     * The state after a finished gesture's outcome, from the lists, selection
     * and tool it had before: a discarded gesture changes nothing; an
     * extracted clip with recognised text becomes a selected-nothing clipping
     * with its card, back on the select tool, and without text changes
     * nothing; a committed annotation is added in page order, with the note
     * (and card) a comment-mode stroke opens.
     */
    ghost predicate OutcomeApplied(o: Outcome, ocrText: Option<string>, answer: Option<string>, gen: Fresh,
                                   annotations0: seq<Annotation>, clippings0: seq<Clipping>,
                                   items0: seq<WorkspaceItem>, comments0: seq<WorkspaceComment>,
                                   selected0: seq<string>, tool0: string)
      reads this
    {
      match o
      case Discard =>
        annotations == annotations0 && clippings == clippings0 && workspaceItems == items0
        && workspaceComments == comments0 && selectedClippings == selected0 && activeTool == tool0
      case ExtractClip(rect, page) =>
        ClipApplied(rect, page, ocrText, gen, annotations0, clippings0, items0, comments0, selected0, tool0)
      case Commit(a) =>
        CommitApplied(a, answer, gen, annotations0, clippings0, items0, comments0, selected0, tool0)
    }

    /** A clip area: with recognised text, an OCR clipping and its card, an empty selection and the select tool; without, nothing. */
    ghost predicate ClipApplied(rect: Rect, page: int, ocrText: Option<string>, gen: Fresh,
                                annotations0: seq<Annotation>, clippings0: seq<Clipping>,
                                items0: seq<WorkspaceItem>, comments0: seq<WorkspaceComment>,
                                selected0: seq<string>, tool0: string)
      reads this
    {
      annotations == annotations0 && workspaceComments == comments0
      && (ocrText.None? ==> clippings == clippings0 && workspaceItems == items0
                            && selectedClippings == selected0 && activeTool == tool0)
      && (ocrText.Some? ==>
            clippings == [Clipping(gen.clipId, ocrText.value, IntToString(page), Some(rect), "OCR", "", None)] + clippings0
            && selectedClippings == [] && activeTool == "select"
            && workspaceItems == SweepCards(AddClipCard(items0, gen.clipId, gen.itemId, PageShareY(page, numPages), gen.jitter), clippings))
    }

    /** A highlight or stroke: sorted in, after the workspace note a comment-mode stroke opens, if any. */
    ghost predicate CommitApplied(a: Annotation, answer: Option<string>, gen: Fresh,
                                  annotations0: seq<Annotation>, clippings0: seq<Clipping>,
                                  items0: seq<WorkspaceItem>, comments0: seq<WorkspaceComment>,
                                  selected0: seq<string>, tool0: string)
      reads this
    {
      var note := SketchNote(a, isFreehandCommentMode, answer, gen.noteId, activeColor);
      annotations == SortBy(annotations0 + [a], PageKey) && clippings == clippings0
      && selectedClippings == selected0 && activeTool == tool0
      && (note.Some? ==> workspaceComments == [note.value] + comments0
                         && workspaceItems == AddNoteCard(items0, gen.noteId, gen.itemId, gen.jitter))
      && (note.None? ==> workspaceComments == comments0 && workspaceItems == items0)
    }

    /** What a finished gesture leaves behind: nothing, an extracted clip, or a committed annotation. */
    method ApplyOutcome(o: Outcome, ocrText: Option<string>, answer: Option<string>, gen: Fresh)
      requires Valid()
      modifies this`annotations, this`clippings, this`selectedClippings, this`activeTool,
               this`workspaceItems, this`workspaceComments
      ensures Valid()
      ensures OutcomeApplied(o, ocrText, answer, gen, old(annotations), old(clippings), old(workspaceItems), old(workspaceComments),
                               old(selectedClippings), old(activeTool))
    {
      match o {
        case Discard =>
        case ExtractClip(rect, page) =>
          AddExtractedClip(rect, page, ocrText, gen);
        case Commit(a) =>
          CommitDrawing(a, answer, gen);
      }
    }

    /**
     * A finished highlight or stroke is added; a stroke drawn in comment mode
     * first opens a workspace note on its bounding box, quoting "Freehand sketch".
     */
    method CommitDrawing(a: Annotation, answer: Option<string>, gen: Fresh)
      requires Valid()
      modifies this`annotations, this`workspaceItems, this`workspaceComments
      ensures Valid()
      ensures annotations == SortBy(old(annotations) + [a], PageKey)
      ensures var note := SketchNote(a, isFreehandCommentMode, answer, gen.noteId, activeColor);
              (note.Some? ==> workspaceComments == [note.value] + old(workspaceComments)
                              && workspaceItems == AddNoteCard(old(workspaceItems), gen.noteId, gen.itemId, gen.jitter))
              && (note.None? ==> workspaceComments == old(workspaceComments) && workspaceItems == old(workspaceItems))
    {
      OpenSketchNote(a, answer, gen);
      AddAnnotation(a);
    }

    /** The comment-mode half of `CommitDrawing`: the note a finished stroke opens, if any. */
    method OpenSketchNote(a: Annotation, answer: Option<string>, gen: Fresh)
      requires Valid()
      modifies this`annotations, this`workspaceItems, this`workspaceComments
      ensures Valid() && annotations == old(annotations)
      ensures var note := SketchNote(a, isFreehandCommentMode, answer, gen.noteId, activeColor);
              (note.Some? ==> workspaceComments == [note.value] + old(workspaceComments)
                              && workspaceItems == AddNoteCard(old(workspaceItems), gen.noteId, gen.itemId, gen.jitter))
              && (note.None? ==> workspaceComments == old(workspaceComments) && workspaceItems == old(workspaceItems))
    {
      if a.kind == "freehand" && isFreehandCommentMode {
        var bounds := BoundingRect(a.points);
        if bounds.Some? {
          var _ := CreateWorkspaceComment(bounds, a.pageNumber, "freehand", "Freehand sketch", false, answer, gen);
        }
      }
    }

    /**
     * `handlePointerUp`: a note or bookmark drag ends; without an overlay the
     * gesture is dropped; an erasing gesture erases once more and ends; a
     * gesture of this overlay is finalised at the pointer; any other gesture
     * is dropped.
     */
    method PointerUp(page: int, key: string, overlays: Overlays, ocrText: Option<string>, answer: Option<string>, gen: Fresh)
      requires Valid()
      modifies this`draggingNote, this`draggingBookmark, this`drawingState, this`annotations, this`clippings,
               this`selectedClippings, this`activeTool, this`workspaceItems, this`workspaceComments
      ensures Valid()
      ensures old(draggingNote).Some? ==> draggingNote.None? && draggingBookmark == old(draggingBookmark)
                                          && drawingState == old(drawingState) && ContentUnchanged()
      ensures old(draggingNote).None? && old(draggingBookmark).Some? ==>
                draggingNote.None? && draggingBookmark.None? && drawingState == old(drawingState) && ContentUnchanged()
      ensures old(draggingNote).None? && old(draggingBookmark).None? ==>
                draggingNote.None? && draggingBookmark.None? && drawingState.None?
      ensures old(draggingNote).None? && old(draggingBookmark).None? && overlays(page).Some?
              && old(drawingState).Some? && old(drawingState).value.Erasing? ==>
                var s := old(drawingState).value;
                var ov := overlays(page).value;
                annotations == (if s.page == 0 then old(annotations) else Erased(old(annotations), s.page, ov.pointer, Some(DimensionsOf(ov.box))))
                && clippings == old(clippings) && workspaceItems == old(workspaceItems) && workspaceComments == old(workspaceComments)
                && selectedClippings == old(selectedClippings) && activeTool == old(activeTool)
      ensures old(draggingNote).None? && old(draggingBookmark).None? && old(drawingState).Some? && !old(drawingState).value.Erasing?
              && overlays(page).Some? && OnGesturePage(old(drawingState).value, page, key) ==>
                OutcomeApplied(Finalize(old(drawingState).value, overlays(page).value.pointer, gen.annotationId, activeColor, activeBrushSize),
                               ocrText, answer, gen, old(annotations), old(clippings), old(workspaceItems), old(workspaceComments),
                               old(selectedClippings), old(activeTool))
      ensures old(draggingNote).None? && old(draggingBookmark).None?
              && (overlays(page).None? || old(drawingState).None? || !OnGesturePage(old(drawingState).value, page, key))
              && !(overlays(page).Some? && old(drawingState).Some? && old(drawingState).value.Erasing?) ==>
                ContentUnchanged()
    {
      if draggingNote.Some? {
        draggingNote := None;
        return;
      }
      if draggingBookmark.Some? {
        draggingBookmark := None;
        return;
      }
      var overlay := overlays(page);
      if overlay.None? {
        drawingState := None;
        return;
      }
      if drawingState.Some? && drawingState.value.Erasing? {
        var s := drawingState.value;
        var _ := EraseAt(s.page, overlay.value.pointer, overlay.value.box);
        drawingState := None;
        return;
      }
      if drawingState.None? || !OnGesturePage(drawingState.value, page, key) {
        drawingState := None;
        return;
      }
      FinalizeDrawing(overlay.value.pointer, ocrText, answer, gen);
    }

    /** `handleStartDraggingNote`: only with the select tool; records the grab offset from the note's position. */
    method StartDraggingNote(note: Annotation, p: Point)
      requires note.position.Some?
      modifies this`draggingNote
      ensures activeTool != "select" ==> draggingNote == old(draggingNote)
      ensures activeTool == "select" ==>
                draggingNote == Some(NoteDrag(note.id, p.x - note.position.value.x, p.y - note.position.value.y, note.pageNumber))
    {
      if activeTool != "select" {
        return;
      }
      draggingNote := Some(NoteDrag(note.id, p.x - note.position.value.x, p.y - note.position.value.y, note.pageNumber));
    }

    method StartDraggingBookmark(bookmark: Bookmark, p: Point)
      modifies this`draggingBookmark
      ensures activeTool != "select" ==> draggingBookmark == old(draggingBookmark)
      ensures activeTool == "select" ==>
                draggingBookmark == Some(BookmarkDrag(bookmark.id, p.x - bookmark.position.x, p.y - bookmark.position.y))
    {
      if activeTool != "select" {
        return;
      }
      draggingBookmark := Some(BookmarkDrag(bookmark.id, p.x - bookmark.position.x, p.y - bookmark.position.y));
    }

    /**
     * `handleClipSelection`: the normalised selected text becomes a PDF
     * clipping of the selection's page, in front of the others, with a card of
     * its own; nothing when the text is empty or the selection has no page.
     * `area` is the selection's first rectangle relative to the overlay, when
     * it can be measured.
     */
    method ClipSelection(raw: string, area: Option<Rect>, gen: Fresh)
      requires Valid()
      modifies this`clippings, this`selectedClippings, this`selection, this`workspaceItems
      ensures Valid()
      ensures var c := SelectionClip(NormalizeClippingText(raw), old(selection), area, gen.clipId);
              (c.None? ==> clippings == old(clippings) && selectedClippings == old(selectedClippings)
                           && selection == old(selection) && workspaceItems == old(workspaceItems))
              && (c.Some? ==> clippings == [c.value] + old(clippings) && selectedClippings == [] && selection == NO_SELECTION
                              && workspaceItems == SweepCards(AddClipCard(old(workspaceItems), gen.clipId, gen.itemId,
                                                                          PageShareY(old(selection).pageNumber, numPages), gen.jitter), clippings))
    {
      ClipText(NormalizeClippingText(raw), area, gen);
    }

    /** `handleClipSelection` once the selected text is normalised. */
    method ClipText(text: string, area: Option<Rect>, gen: Fresh)
      requires Valid()
      modifies this`clippings, this`selectedClippings, this`selection, this`workspaceItems
      ensures Valid()
      ensures var c := SelectionClip(text, old(selection), area, gen.clipId);
              (c.None? ==> clippings == old(clippings) && selectedClippings == old(selectedClippings)
                           && selection == old(selection) && workspaceItems == old(workspaceItems))
              && (c.Some? ==> clippings == [c.value] + old(clippings) && selectedClippings == [] && selection == NO_SELECTION
                              && workspaceItems == SweepCards(AddClipCard(old(workspaceItems), gen.clipId, gen.itemId,
                                                                          PageShareY(old(selection).pageNumber, numPages), gen.jitter), clippings))
    {
      var c := SelectionClip(text, selection, area, gen.clipId);
      if c.None? {
        return;
      }
      AddClipping(c.value, selection.pageNumber, gen);
      selection := NO_SELECTION;
    }

    /** `toggleClippingSelection`. */
    method ToggleClippingSelection(id: string)
      modifies this`selectedClippings
      ensures selectedClippings == ToggleSelection(old(selectedClippings), id)
      ensures id in selectedClippings <==> id !in old(selectedClippings)
    {
      ToggleFlipsMembership(selectedClippings, id);
      selectedClippings := ToggleSelection(selectedClippings, id);
    }

    /** `handleReorderClipping`: a swap with the neighbour in direction `dir`; no card is affected. */
    method ReorderClippings(id: string, dir: int)
      requires Valid()
      modifies this`clippings
      ensures Valid()
      ensures clippings == Reordered(old(clippings), id, dir)
      ensures multiset(clippings) == multiset(old(clippings))
    {
      ReorderPermutes(clippings, id, dir);
      ResolvesUnderPermutation(workspaceItems, clippings, Reordered(clippings, id, dir));
      clippings := ReorderClipping(clippings, id, dir);
    }

    /** `handleCombineClippings`, followed by the card sweep. */
    method CombineSelected(gen: Fresh)
      requires Valid()
      modifies this`clippings, this`selectedClippings, this`workspaceItems
      ensures Valid()
      ensures var r := Combine(ClipState(old(clippings), old(workspaceItems), old(selectedClippings)), gen.clipId, gen.itemId, gen.jitter);
              clippings == r.clippings && selectedClippings == r.selection
              && workspaceItems == SweepCards(r.items, r.clippings)
    {
      var r := Combine(ClipState(clippings, workspaceItems, selectedClippings), gen.clipId, gen.itemId, gen.jitter);
      clippings := r.clippings;
      selectedClippings := r.selection;
      SweepResolves(r.items, r.clippings);
      workspaceItems := SweepCards(r.items, r.clippings);
    }

    /** `handleUncombineClipping`, followed by the card sweep; `itemIds` and `jitters` number the new cards. */
    method UncombineClipping(id: string, itemIds: nat -> string, jitters: nat -> real)
      requires Valid()
      modifies this`clippings, this`workspaceItems
      ensures Valid()
      ensures var r := Uncombine(ClipState(old(clippings), old(workspaceItems), selectedClippings), id, itemIds, jitters);
              clippings == r.clippings && workspaceItems == SweepCards(r.items, r.clippings)
    {
      var r := Uncombine(ClipState(clippings, workspaceItems, selectedClippings), id, itemIds, jitters);
      clippings := r.clippings;
      SweepResolves(r.items, r.clippings);
      workspaceItems := SweepCards(r.items, r.clippings);
    }

    /** `handleRemoveClipping`: the clipping, its cards and its selection entry go; the sweep then has nothing to drop. */
    method RemoveClippingById(id: string)
      requires Valid()
      modifies this`clippings, this`workspaceItems, this`selectedClippings
      ensures Valid()
      ensures var r := RemoveClipping(ClipState(old(clippings), old(workspaceItems), old(selectedClippings)), id);
              clippings == r.clippings && workspaceItems == SweepCards(r.items, r.clippings) && selectedClippings == r.selection
    {
      var st := ClipState(clippings, workspaceItems, selectedClippings);
      var r := RemoveClipping(st, id);
      SweepResolves(r.items, r.clippings);
      clippings := r.clippings;
      workspaceItems := SweepCards(r.items, r.clippings);
      selectedClippings := r.selection;
    }

    /** `handleRemoveBookmark`. */
    method RemoveBookmarkById(id: string)
      modifies this`bookmarks
      ensures bookmarks == RemoveBookmark(old(bookmarks), id)
    {
      bookmarks := RemoveBookmark(bookmarks, id);
    }

    /** `handleDeleteWorkspaceComment`: nothing for an empty id; otherwise the note and its cards go. */
    method DeleteWorkspaceComment(id: string)
      requires Valid()
      modifies this`workspaceComments, this`workspaceItems
      ensures Valid()
      ensures id == "" ==> workspaceComments == old(workspaceComments) && workspaceItems == old(workspaceItems)
      ensures id != "" ==> workspaceComments == WithoutId(old(workspaceComments), NoteId, id)
                           && workspaceItems == RemoveNoteCards(old(workspaceItems), id)
    {
      if id == "" {
        return;
      }
      workspaceComments := WithoutId(workspaceComments, NoteId, id);
      workspaceItems := RemoveNoteCards(workspaceItems, id);
    }

    /** `handleSearch`: the results of the current term over the pages, the first one active (or -1 when none). */
    method RunSearch(views: seq<PageView>, measures: int -> Measure, sortRects: seq<Rect> -> seq<Rect>)
      requires Valid()
      modifies this`searchResults, this`activeSearchResultIndex
      ensures Valid()
      ensures searchResults == SearchResults(searchTerm, numPages, views, measures, sortRects).0
      ensures activeSearchResultIndex == SearchResults(searchTerm, numPages, views, measures, sortRects).1
    {
      var term, pages := searchTerm, numPages;
      var results, active := Search(term, pages, views, measures, sortRects);
      SearchActiveInRange(term, pages, views, measures, sortRects);
      searchResults := results;
      activeSearchResultIndex := active;
      assert searchTerm == term && numPages == pages;
    }

    /** `goToNextSearchResult`: nothing without results. */
    method GoToNextResult()
      requires Valid()
      modifies this`activeSearchResultIndex
      ensures Valid()
      ensures |searchResults| == 0 ==> activeSearchResultIndex == old(activeSearchResultIndex)
      ensures |searchResults| > 0 ==> activeSearchResultIndex == NextIndex(old(activeSearchResultIndex), |searchResults|)
    {
      if |searchResults| == 0 {
        return;
      }
      NavigationInRange(activeSearchResultIndex, |searchResults|);
      activeSearchResultIndex := NextIndex(activeSearchResultIndex, |searchResults|);
    }

    /** `goToPreviousSearchResult`: nothing without results. */
    method GoToPreviousResult()
      requires Valid()
      modifies this`activeSearchResultIndex
      ensures Valid()
      ensures |searchResults| == 0 ==> activeSearchResultIndex == old(activeSearchResultIndex)
      ensures |searchResults| > 0 ==> activeSearchResultIndex == PreviousIndex(old(activeSearchResultIndex), |searchResults|)
    {
      if |searchResults| == 0 {
        return;
      }
      NavigationInRange(activeSearchResultIndex, |searchResults|);
      activeSearchResultIndex := PreviousIndex(activeSearchResultIndex, |searchResults|);
    }

    /** The effect on the active result: the viewer's primary page becomes the result's page. */
    method FollowActiveResult()
      requires Valid()
      modifies this`primaryPage
      ensures activeSearchResultIndex >= 0 ==> primaryPage == searchResults[activeSearchResultIndex].pageNumber
      ensures activeSearchResultIndex < 0 ==> primaryPage == old(primaryPage)
    {
      var page := ActiveResultPage(searchResults, activeSearchResultIndex);
      if page.Some? {
        primaryPage := page.value;
      }
    }
  }
}
