/**
 * The legacy annotable page of the flip viewer: rectangles and freehand
 * strokes drawn over a page image, stored relative to the displayed stage
 * size, collected as pending highlights until a comment turns them into one
 * group, and erased one highlight or one item at a time.
 *
 * A freehand stroke is a flat list `[x1, y1, x2, y2, …]`. Coordinates are
 * stage pixels while drawing and fractions of the stage once stored.
 */
module AnnotablePage {
  import opened Wrappers
  import opened JsText
  import opened WorkspaceTypes
  import opened WorkspaceUtils

  /** A comment on an item; `createdAt` is absent on the placeholder an edit creates. */
  datatype Comment = Comment(text: string, createdAt: Option<int>)

  /** A drawn mark; `id` is "" for a mark that was never saved. */
  datatype Mark =
    | RectMark(id: string, x: real, y: real, width: real, height: real)
    | FreehandMark(id: string, points: seq<real>, color: string, strokeWidth: real)

  /** A stored annotation: one mark, or a group of marks sharing comments; `None` comments means the field is absent. */
  datatype PageItem =
    | Single(mark: Mark, comments: Option<seq<Comment>>)
    | Group(id: string, highlights: seq<Mark>, comments: Option<seq<Comment>>)

  /** The freehand stroke being drawn, in stage pixels. */
  datatype Draft = Draft(points: seq<real>, color: string, strokeWidth: real)

  /** The smallest drag, in pixels along each axis, that keeps a rectangle. */
  const MIN_RECT_DRAG: real := 5.0

  // ---------------------------------------------------------------- normalise

  /** `normalizeFreehand` on the flat list: x entries (even positions) over the width, y entries over the height. */
  function NormalizeFlat(points: seq<real>, w: real, h: real): (r: seq<real>)
    requires w != 0.0 && h != 0.0
    ensures |r| == |points|
    ensures forall i :: 0 <= i < |r| ==> r[i] * (if i % 2 == 0 then w else h) == points[i]
  {
    seq(|points|, i requires 0 <= i < |points| => if i % 2 == 0 then points[i] / w else points[i] / h)
  }

  /** `denormalizeFreehand` on the flat list. */
  function DenormalizeFlat(points: seq<real>, w: real, h: real): (r: seq<real>)
    ensures |r| == |points|
    ensures forall i :: 0 <= i < |r| ==> r[i] == points[i] * (if i % 2 == 0 then w else h)
  {
    seq(|points|, i requires 0 <= i < |points| => if i % 2 == 0 then points[i] * w else points[i] * h)
  }

  /** Denormalising a normalised stroke with the same stage size gives it back, and the other way round. */
  lemma FlatRoundTrip(points: seq<real>, w: real, h: real)
    requires w != 0.0 && h != 0.0
    ensures DenormalizeFlat(NormalizeFlat(points, w, h), w, h) == points
    ensures NormalizeFlat(DenormalizeFlat(points, w, h), w, h) == points
  {
    DenormalizeAfterNormalize(points, w, h);
    NormalizeAfterDenormalize(points, w, h);
  }

  lemma DenormalizeAfterNormalize(points: seq<real>, w: real, h: real)
    requires w != 0.0 && h != 0.0
    ensures DenormalizeFlat(NormalizeFlat(points, w, h), w, h) == points
  {
    var n := NormalizeFlat(points, w, h);
    assert forall i :: 0 <= i < |points| ==> DenormalizeFlat(n, w, h)[i] == points[i];
  }

  lemma NormalizeAfterDenormalize(points: seq<real>, w: real, h: real)
    requires w != 0.0 && h != 0.0
    ensures NormalizeFlat(DenormalizeFlat(points, w, h), w, h) == points
  {
    var d := DenormalizeFlat(points, w, h);
    var r := NormalizeFlat(d, w, h);
    forall i | 0 <= i < |points|
      ensures r[i] == points[i]
    {
      var s := if i % 2 == 0 then w else h;
      assert r[i] * s == d[i];
      assert d[i] == points[i] * s;
      CancelFactor(r[i], points[i], s);
    }
  }

  lemma CancelFactor(a: real, b: real, s: real)
    requires s != 0.0 && a * s == b * s
    ensures a == b
  {
    assert (a - b) * s == 0.0;
  }

  /** `normalizeRect` / `normalizeFreehand` on a mark: the stage size divided out. */
  function NormalizeMark(m: Mark, w: real, h: real): (r: Mark)
    requires w != 0.0 && h != 0.0
    ensures r.RectMark? == m.RectMark? && r.id == m.id
  {
    match m
    case RectMark(id, x, y, width, height) => RectMark(id, x / w, y / h, width / w, height / h)
    case FreehandMark(id, points, color, sw) => FreehandMark(id, NormalizeFlat(points, w, h), color, sw)
  }

  /** `denormalizeRect` / `denormalizeFreehand` on a mark: the stage size multiplied back in. */
  function DenormalizeMark(m: Mark, w: real, h: real): (r: Mark)
    ensures r.RectMark? == m.RectMark? && r.id == m.id
  {
    match m
    case RectMark(id, x, y, width, height) => RectMark(id, x * w, y * h, width * w, height * h)
    case FreehandMark(id, points, color, sw) => FreehandMark(id, DenormalizeFlat(points, w, h), color, sw)
  }

  /** A mark stored and then drawn at the same stage size is drawn where it was made. */
  lemma MarkRoundTrip(m: Mark, w: real, h: real)
    requires w != 0.0 && h != 0.0
    ensures DenormalizeMark(NormalizeMark(m, w, h), w, h) == m
  {
    if m.FreehandMark? {
      FlatRoundTrip(m.points, w, h);
    }
  }

  // ---------------------------------------------------------------- rectangle drag

  /** A drag is kept when it is more than 5 pixels along both axes, in either direction. */
  predicate KeepsDrag(d: Rect)
  {
    Abs(d.width) > MIN_RECT_DRAG && Abs(d.height) > MIN_RECT_DRAG
  }

  /** A drag towards the left or the top, turned into the same box with a non-negative size. */
  function Flipped(d: Rect): (r: Rect)
    ensures r.width >= 0.0 && r.height >= 0.0
    ensures r.x == Min(d.x, d.x + d.width) && r.x + r.width == Max(d.x, d.x + d.width)
    ensures r.y == Min(d.y, d.y + d.height) && r.y + r.height == Max(d.y, d.y + d.height)
    ensures r.width == Abs(d.width) && r.height == Abs(d.height)
  {
    var x := if d.width < 0.0 then d.x + d.width else d.x;
    var y := if d.height < 0.0 then d.y + d.height else d.y;
    Rect(x, y, Abs(d.width), Abs(d.height))
  }

  // ---------------------------------------------------------------- erase

  /** `Array.prototype.splice(i, 1)`'s start: counted from the end when negative, never past the end. */
  function SpliceStart(len: nat, i: int): (k: nat)
    ensures k <= len
    ensures 0 <= i < len ==> k == i
  {
    if i < 0 then (if len + i < 0 then 0 else len + i) else if i > len then len else i
  }

  /** `splice(i, 1)`: the entry at the start position goes, if there is one. */
  function SpliceOne<T>(s: seq<T>, i: int): (r: seq<T>)
    ensures 0 <= i < |s| ==> r == s[..i] + s[i + 1..]
    ensures i >= |s| ==> r == s
  {
    var k := SpliceStart(|s|, i);
    if k < |s| then s[..k] + s[k + 1..] else s
  }

  /** `filter((_, j) => j !== i)`: the entry at index `i` goes; any other index changes nothing. */
  function RemoveAt<T>(s: seq<T>, i: int): (r: seq<T>)
    ensures 0 <= i < |s| ==> r == s[..i] + s[i + 1..]
    ensures !(0 <= i < |s|) ==> r == s
  {
    if 0 <= i < |s| then s[..i] + s[i + 1..] else s
  }

  /** The group's comments are emptied when it had some; an absent field stays absent. */
  function ClearedComments(c: Option<seq<Comment>>): (r: Option<seq<Comment>>)
    ensures c.Some? ==> r == Some([])
    ensures c.None? ==> r == None
  {
    if c.Some? && |c.value| > 0 then Some([]) else c
  }

  /** `handleErase` on the stored annotations, for a non-pending index. */
  function EraseItems(items: seq<PageItem>, annIndex: int, highlightIndex: Option<int>): seq<PageItem>
  {
    if !(0 <= annIndex < |items|) then items
    else
      var item := items[annIndex];
      if item.Group? && highlightIndex.Some? then
        var rest := SpliceOne(item.highlights, highlightIndex.value);
        if |rest| == 0 then RemoveAt(items, annIndex)
        else items[annIndex := item.(highlights := rest, comments := ClearedComments(item.comments))]
      else RemoveAt(items, annIndex)
  }

  /** The id `handleErase` passes to the delete callback: the erased highlight's, or the item's; none when empty. */
  function EraseTarget(items: seq<PageItem>, annIndex: int, highlightIndex: Option<int>): (r: Option<string>)
    ensures r.Some? ==> r.value != "" && 0 <= annIndex < |items|
    ensures r.Some? && items[annIndex].Group? && highlightIndex.Some? ==>
              0 <= highlightIndex.value < |items[annIndex].highlights| &&
              r.value == items[annIndex].highlights[highlightIndex.value].id
  {
    if !(0 <= annIndex < |items|) then None
    else
      var item := items[annIndex];
      var id :=
        if item.Group? && highlightIndex.Some? then
          (if 0 <= highlightIndex.value < |item.highlights| then item.highlights[highlightIndex.value].id else "")
        else if item.Group? then item.id
        else item.mark.id;
      if id == "" then None else Some(id)
  }

  /** The number of marks the stored annotations draw. */
  function MarkCount(items: seq<PageItem>): nat
  {
    if |items| == 0 then 0
    else (if items[0].Single? then 1 else |items[0].highlights|) + MarkCount(items[1..])
  }

  lemma {:induction false} MarkCountAppend(a: seq<PageItem>, b: seq<PageItem>)
    ensures MarkCount(a + b) == MarkCount(a) + MarkCount(b)
  {
    if |a| > 0 {
      assert (a + b)[1..] == a[1..] + b;
      MarkCountAppend(a[1..], b);
    } else {
      assert a + b == b;
    }
  }

  /** The marks of one item. */
  function ItemMarks(item: PageItem): nat { if item.Single? then 1 else |item.highlights| }

  lemma MarkCountSplit(items: seq<PageItem>, i: int)
    requires 0 <= i < |items|
    ensures MarkCount(items) == MarkCount(items[..i]) + ItemMarks(items[i]) + MarkCount(items[i + 1..])
  {
    var before, after := items[..i], items[i + 1..];
    var tail := [items[i]] + after;
    assert items == before + tail;
    MarkCountAppend(before, tail);
    assert tail[0] == items[i] && tail[1..] == after;
    assert MarkCount(tail) == ItemMarks(items[i]) + MarkCount(after);
  }

  /**
   * Erasing one highlight of a group, or a single mark, removes exactly one
   * mark; erasing a whole group removes its marks; an index past the end
   * removes nothing. The items before the erased one are untouched.
   */
  lemma EraseRemovesOne(items: seq<PageItem>, annIndex: int, highlightIndex: Option<int>)
    ensures !(0 <= annIndex < |items|) ==> EraseItems(items, annIndex, highlightIndex) == items
    ensures 0 <= annIndex < |items| ==>
              var item := items[annIndex];
              var r := EraseItems(items, annIndex, highlightIndex);
              r[..annIndex] == items[..annIndex] &&
              (item.Single? ==> MarkCount(r) == MarkCount(items) - 1) &&
              (item.Group? && highlightIndex.None? ==> MarkCount(r) == MarkCount(items) - |item.highlights|) &&
              (item.Group? && highlightIndex.Some? && 0 <= highlightIndex.value < |item.highlights| ==>
                 MarkCount(r) == MarkCount(items) - 1)
  {
    if 0 <= annIndex < |items| {
      var item := items[annIndex];
      var r := EraseItems(items, annIndex, highlightIndex);
      MarkCountSplit(items, annIndex);
      var removed := items[..annIndex] + items[annIndex + 1..];
      MarkCountAppend(items[..annIndex], items[annIndex + 1..]);
      assert removed[..annIndex] == items[..annIndex];
      if item.Group? && highlightIndex.Some? {
        var rest := SpliceOne(item.highlights, highlightIndex.value);
        if |rest| != 0 {
          MarkCountSplit(r, annIndex);
          assert r[..annIndex] == items[..annIndex];
          assert r[annIndex + 1..] == items[annIndex + 1..];
        }
      }
    }
  }

  /** An erased group highlight takes the group's comments with it, and the rest of its highlights stay in order. */
  lemma EraseGroupHighlight(items: seq<PageItem>, annIndex: int, hi: int)
    requires 0 <= annIndex < |items| && items[annIndex].Group? && 0 <= hi < |items[annIndex].highlights|
    requires |items[annIndex].highlights| > 1
    ensures var g := items[annIndex];
            var r := EraseItems(items, annIndex, Some(hi));
            |r| == |items| && r[annIndex].Group? &&
            r[annIndex].highlights == g.highlights[..hi] + g.highlights[hi + 1..] &&
            (g.comments.Some? ==> r[annIndex].comments == Some([])) &&
            forall j :: 0 <= j < |items| && j != annIndex ==> r[j] == items[j]
  {
  }

  /** Erasing the only highlight of a group removes the group. */
  lemma EraseLastHighlightRemovesGroup(items: seq<PageItem>, annIndex: int)
    requires 0 <= annIndex < |items| && items[annIndex].Group? && |items[annIndex].highlights| == 1
    ensures EraseItems(items, annIndex, Some(0)) == items[..annIndex] + items[annIndex + 1..]
  {
  }

  // ---------------------------------------------------------------- comment edit

  /**
   * The comment edit as written: an absent comment list gets a placeholder
   * whose text is then set; an empty list passes the absence test and the
   * text is set on an entry that does not exist (a `TypeError`, `None` here).
   */
  function EditFirstCommentAsWritten(comments: Option<seq<Comment>>, text: string): (r: Option<seq<Comment>>)
  {
    var c := if comments.None? then [Comment("", None)] else comments.value;
    if |c| == 0 then None else Some(c[0 := c[0].(text := text)])
  }

  /**
   * A group that lost one of two highlights to the eraser has an empty
   * comment list, and the as-written edit of its comment fails. The interface
   * clears the selection on the eraser's click and shows no comment icon for
   * such a group, so this is a state the edit does not guard against rather
   * than one a known sequence of clicks reaches.
   */
  lemma ErasedGroupCommentEditFailsAsWritten()
    ensures var m1, m2 := RectMark("h1", 0.1, 0.1, 0.2, 0.2), RectMark("h2", 0.5, 0.5, 0.2, 0.2);
            var items := [Group("g", [m1, m2], Some([Comment("note", Some(1))]))];
            var r := EraseItems(items, 0, Some(0));
            r[0].comments == Some([]) && EditFirstCommentAsWritten(r[0].comments, "new text").None?
  {
    var m1, m2 := RectMark("h1", 0.1, 0.1, 0.2, 0.2), RectMark("h2", 0.5, 0.5, 0.2, 0.2);
    var items := [Group("g", [m1, m2], Some([Comment("note", Some(1))]))];
    assert SpliceOne([m1, m2], 0) == [m2];
  }

  /** The comment edit with an empty list treated like an absent one: the first comment carries the text, the others stay. */
  function EditFirstComment(comments: Option<seq<Comment>>, text: string): (r: seq<Comment>)
    ensures |r| >= 1 && r[0].text == text
    ensures comments.Some? && |comments.value| > 0 ==>
              |r| == |comments.value| && r[0].createdAt == comments.value[0].createdAt && r[1..] == comments.value[1..]
    ensures comments.None? || |comments.value| == 0 ==> r == [Comment(text, None)]
  {
    if comments.None? || |comments.value| == 0 then [Comment(text, None)]
    else comments.value[0 := comments.value[0].(text := text)]
  }

  /** Where the as-written edit succeeds, the corrected one agrees with it. */
  lemma EditFirstCommentAgrees(comments: Option<seq<Comment>>, text: string)
    requires EditFirstCommentAsWritten(comments, text).Some?
    ensures EditFirstCommentAsWritten(comments, text).value == EditFirstComment(comments, text)
  {
  }

  function WithComments(item: PageItem, c: seq<Comment>): PageItem
  {
    item.(comments := Some(c))
  }

  // ---------------------------------------------------------------- the page

  /** The `AnnotablePage` component's drawing and comment state. */
  class Page {
    var annotations: seq<PageItem>
    var pending: seq<Mark>
    var newRect: Option<Rect>
    var newFreehand: Option<Draft>
    var activeIndex: Option<int>
    var activePendingIndex: Option<int>
    var isEditing: bool
    /** The parent's comment-open flag, set through `setIsCommentOpen`. */
    var commentOpen: bool
    var pendingComment: string

    /** A stroke in progress is a whole number of (x, y) pairs, at least the starting one. */
    ghost predicate Valid()
      reads this
    {
      newFreehand.Some? ==> |newFreehand.value.points| >= 2 && |newFreehand.value.points| % 2 == 0
    }

    constructor ()
      ensures Valid() && annotations == [] && pending == [] && newRect.None? && newFreehand.None?
      ensures activeIndex.None? && activePendingIndex.None? && !isEditing && !commentOpen && pendingComment == ""
    {
      annotations := [];
      pending := [];
      newRect := None;
      newFreehand := None;
      activeIndex := None;
      activePendingIndex := None;
      isEditing := false;
      commentOpen := false;
      pendingComment := "";
    }

    /**
     * `handleMouseDown`: while drawing, a press on the stage or the page image
     * (`onBackground`) starts a stroke at the pointer (freehand) or an empty
     * rectangle there, and closes any open comment.
     */
    method MouseDown(isDrawing: bool, isFreehand: bool, onBackground: bool, pos: Option<Point>, color: string, brushSize: real)
      requires Valid()
      modifies this
      ensures Valid()
      ensures annotations == old(annotations) && pending == old(pending) && pendingComment == old(pendingComment)
      ensures !isDrawing || !onBackground || pos.None? ==>
                newRect == old(newRect) && newFreehand == old(newFreehand) && activeIndex == old(activeIndex) &&
                activePendingIndex == old(activePendingIndex) && isEditing == old(isEditing) && commentOpen == old(commentOpen)
      ensures isDrawing && onBackground && pos.Some? ==>
                activeIndex.None? && activePendingIndex.None? && !isEditing && !commentOpen &&
                (isFreehand ==> newFreehand == Some(Draft([pos.value.x, pos.value.y], color, brushSize)) && newRect == old(newRect)) &&
                (!isFreehand ==> newRect == Some(Rect(pos.value.x, pos.value.y, 0.0, 0.0)) && newFreehand == old(newFreehand))
    {
      if !isDrawing || !onBackground || pos.None? {
        return;
      }
      var p := pos.value;
      if isFreehand {
        newFreehand := Some(Draft([p.x, p.y], color, brushSize));
      } else {
        newRect := Some(Rect(p.x, p.y, 0.0, 0.0));
      }
      activeIndex := None;
      activePendingIndex := None;
      isEditing := false;
      commentOpen := false;
    }

    /** `handleMouseMove`: a stroke gains the pointer's (x, y); a rectangle stretches to the pointer. */
    method MouseMove(isDrawing: bool, isFreehand: bool, pos: Option<Point>)
      requires Valid()
      modifies this`newFreehand, this`newRect
      ensures Valid()
      ensures !isDrawing || pos.None? ==> newFreehand == old(newFreehand) && newRect == old(newRect)
      ensures isDrawing && pos.Some? && isFreehand && old(newFreehand).Some? ==>
                newRect == old(newRect) &&
                newFreehand == Some(old(newFreehand).value.(points := old(newFreehand).value.points + [pos.value.x, pos.value.y]))
      ensures isDrawing && pos.Some? && !isFreehand && old(newRect).Some? ==>
                newFreehand == old(newFreehand) &&
                newRect == Some(old(newRect).value.(width := pos.value.x - old(newRect).value.x,
                                                    height := pos.value.y - old(newRect).value.y))
      ensures isDrawing && pos.Some? && ((isFreehand && old(newFreehand).None?) || (!isFreehand && old(newRect).None?)) ==>
                newFreehand == old(newFreehand) && newRect == old(newRect)
    {
      if !isDrawing || pos.None? {
        return;
      }
      var p := pos.value;
      if isFreehand && newFreehand.Some? {
        var d := newFreehand.value;
        newFreehand := Some(d.(points := d.points + [p.x, p.y]));
      } else if !isFreehand && newRect.Some? {
        var r := newRect.value;
        newRect := Some(r.(width := p.x - r.x, height := p.y - r.y));
      }
    }

    /**
     * `handleMouseUp` for a stroke: normalised to the stage size `w` × `h`, it
     * becomes a pending highlight with its comment open, or a stored
     * annotation when strokes do not open comments.
     */
    method FinishStroke(w: real, h: real, freehandOpensComment: bool)
      requires Valid() && newFreehand.Some? && w != 0.0 && h != 0.0
      modifies this
      ensures Valid() && newFreehand.None? && newRect == old(newRect) && pendingComment == old(pendingComment)
      ensures var d := old(newFreehand).value;
              var m := FreehandMark("", NormalizeFlat(d.points, w, h), d.color, d.strokeWidth);
              if freehandOpensComment then
                pending == old(pending) + [m] && annotations == old(annotations) &&
                activePendingIndex == Some(|pending| - 1) && isEditing && commentOpen && activeIndex == old(activeIndex)
              else
                annotations == old(annotations) + [Single(m, None)] && pending == old(pending) &&
                activePendingIndex == old(activePendingIndex) && isEditing == old(isEditing) &&
                commentOpen == old(commentOpen) && activeIndex == old(activeIndex)
    {
      var d := newFreehand.value;
      var m := FreehandMark("", NormalizeFlat(d.points, w, h), d.color, d.strokeWidth);
      if freehandOpensComment {
        pending := pending + [m];
        activePendingIndex := Some(|pending| - 1);
        isEditing := true;
        commentOpen := true;
      } else {
        annotations := annotations + [Single(m, None)];
      }
      newFreehand := None;
    }

    /**
     * `handleMouseUp` for a rectangle: a drag of more than 5 pixels both ways
     * is flipped to a non-negative size, normalised and added as a pending
     * highlight being edited; a smaller one is dropped.
     */
    method FinishRect(w: real, h: real)
      requires Valid() && newRect.Some? && w != 0.0 && h != 0.0
      modifies this
      ensures Valid() && newRect.None? && newFreehand == old(newFreehand)
      ensures annotations == old(annotations) && activeIndex == old(activeIndex)
      ensures commentOpen == old(commentOpen) && pendingComment == old(pendingComment)
      ensures var d := old(newRect).value;
              if KeepsDrag(d) then
                var f := Flipped(d);
                pending == old(pending) + [NormalizeMark(RectMark("", f.x, f.y, f.width, f.height), w, h)] &&
                activePendingIndex == Some(|pending| - 1) && isEditing
              else
                pending == old(pending) && activePendingIndex == old(activePendingIndex) && isEditing == old(isEditing)
    {
      var d := newRect.value;
      if KeepsDrag(d) {
        var f := Flipped(d);
        pending := pending + [NormalizeMark(RectMark("", f.x, f.y, f.width, f.height), w, h)];
        activePendingIndex := Some(|pending| - 1);
        isEditing := true;
      }
      newRect := None;
    }

    /** `handleMouseUp`: finish the stroke or the rectangle the current tool was drawing; nothing otherwise. */
    method MouseUp(isDrawing: bool, isFreehand: bool, w: real, h: real, freehandOpensComment: bool)
      requires Valid() && w != 0.0 && h != 0.0
      modifies this
      ensures Valid()
      ensures isDrawing && isFreehand && old(newFreehand).Some? ==> newFreehand.None?
      ensures isDrawing && !isFreehand && old(newRect).Some? ==> newRect.None?
      ensures !isDrawing || (isFreehand && old(newFreehand).None?) || (!isFreehand && old(newRect).None?) ==>
                annotations == old(annotations) && pending == old(pending) &&
                newRect == old(newRect) && newFreehand == old(newFreehand)
    {
      if !isDrawing {
        return;
      }
      if isFreehand && newFreehand.Some? {
        FinishStroke(w, h, freehandOpensComment);
      } else if !isFreehand && newRect.Some? {
        FinishRect(w, h);
      }
    }

    /**
     * `handleCommentChange`: a non-blank comment typed on a pending highlight
     * stores every pending highlight as one group with that comment and
     * selects it; otherwise the selected item's first comment takes the text.
     */
    method CommentChange(text: string, now: int)
      requires Valid()
      modifies this`pendingComment, this`annotations, this`pending, this`activePendingIndex, this`activeIndex
      ensures Valid() && pendingComment == text
      ensures old(activePendingIndex).Some? && Trim(text) != "" ==>
                annotations == old(annotations) + [Group("", old(pending), Some([Comment(text, Some(now))]))] &&
                pending == [] && activePendingIndex.None? && activeIndex == Some(|annotations| - 1) &&
                MarkCount(annotations) == MarkCount(old(annotations)) + |old(pending)|
      ensures !(old(activePendingIndex).Some? && Trim(text) != "") ==>
                pending == old(pending) && activePendingIndex == old(activePendingIndex) && activeIndex == old(activeIndex) &&
                (if old(activeIndex).Some? && 0 <= old(activeIndex).value < |old(annotations)| then
                   var i := old(activeIndex).value;
                   annotations == old(annotations)[i := WithComments(old(annotations)[i], EditFirstComment(old(annotations)[i].comments, text))]
                 else annotations == old(annotations))
    {
      if activePendingIndex.Some? && Trim(text) != "" {
        StorePendingGroup(text, now);
      } else {
        EditSelectedComment(text);
      }
      pendingComment := text;
    }

    /** The pending highlights become one group carrying the comment, and that group is selected. */
    method StorePendingGroup(text: string, now: int)
      modifies this`annotations, this`pending, this`activePendingIndex, this`activeIndex
      ensures annotations == old(annotations) + [Group("", old(pending), Some([Comment(text, Some(now))]))]
      ensures pending == [] && activePendingIndex.None? && activeIndex == Some(|annotations| - 1)
      ensures MarkCount(annotations) == MarkCount(old(annotations)) + |old(pending)|
    {
      var group := Group("", pending, Some([Comment(text, Some(now))]));
      MarkCountAppend(annotations, [group]);
      annotations := annotations + [group];
      pending := [];
      activePendingIndex := None;
      activeIndex := Some(|annotations| - 1);
    }

    /** The selected item, when there is one, takes the text as its first comment. */
    method EditSelectedComment(text: string)
      modifies this`annotations
      ensures if activeIndex.Some? && 0 <= activeIndex.value < |old(annotations)| then
                var i := activeIndex.value;
                annotations == old(annotations)[i := WithComments(old(annotations)[i], EditFirstComment(old(annotations)[i].comments, text))]
              else annotations == old(annotations)
    {
      if activeIndex.Some? && 0 <= activeIndex.value < |annotations| {
        var i := activeIndex.value;
        annotations := annotations[i := WithComments(annotations[i], EditFirstComment(annotations[i].comments, text))];
      }
    }

    /** The first comment's text, or "" when there is none. */
    static function FirstCommentText(c: Option<seq<Comment>>): (t: string)
      ensures c.Some? && |c.value| > 0 ==> t == c.value[0].text
      ensures c.None? || |c.value| == 0 ==> t == ""
    {
      if c.Some? && |c.value| > 0 then c.value[0].text else ""
    }

    /**
     * `handleAnnotationClick`: the clicked stored item (or pending highlight)
     * becomes the only selection, its first comment is loaded into the
     * comment box, and the comment opens for editing.
     */
    method AnnotationClick(index: int, isPending: bool)
      requires Valid()
      modifies this`activeIndex, this`activePendingIndex, this`pendingComment, this`isEditing, this`commentOpen
      ensures Valid() && isEditing && commentOpen
      ensures isPending ==> activePendingIndex == Some(index) && activeIndex.None? && pendingComment == ""
      ensures !isPending ==>
                activeIndex == Some(index) && activePendingIndex.None? &&
                pendingComment == (if 0 <= index < |annotations| then FirstCommentText(annotations[index].comments) else "")
    {
      if isPending {
        activePendingIndex := Some(index);
        activeIndex := None;
        pendingComment := "";
      } else {
        activeIndex := Some(index);
        activePendingIndex := None;
        pendingComment := if 0 <= index < |annotations| then FirstCommentText(annotations[index].comments) else "";
      }
      isEditing := true;
      commentOpen := true;
    }

    /**
     * `handleDelete`: the selected stored item goes, or else the selected
     * pending highlight; the comment closes either way.
     */
    method Delete()
      requires Valid()
      modifies this`annotations, this`pending, this`activeIndex, this`activePendingIndex, this`isEditing, this`commentOpen
      ensures Valid() && !isEditing && !commentOpen
      ensures old(activeIndex).Some? ==>
                annotations == RemoveAt(old(annotations), old(activeIndex).value) && activeIndex.None? &&
                pending == old(pending) && activePendingIndex == old(activePendingIndex)
      ensures old(activeIndex).None? && old(activePendingIndex).Some? ==>
                pending == RemoveAt(old(pending), old(activePendingIndex).value) && activePendingIndex.None? &&
                annotations == old(annotations) && activeIndex.None?
      ensures old(activeIndex).None? && old(activePendingIndex).None? ==>
                annotations == old(annotations) && pending == old(pending) && activeIndex.None? && activePendingIndex.None?
    {
      if activeIndex.Some? {
        annotations := RemoveAt(annotations, activeIndex.value);
        activeIndex := None;
      } else if activePendingIndex.Some? {
        pending := RemoveAt(pending, activePendingIndex.value);
        activePendingIndex := None;
      }
      isEditing := false;
      commentOpen := false;
    }

    /**
     * `handleErase`: a pending index removes that pending highlight (and
     * clears the pending selection when it was that one); otherwise the
     * stored annotations are erased as `EraseItems` says and the selection is
     * cleared when it was the erased item. The id for the delete callback is
     * returned.
     */
    method Erase(annIndex: int, highlightIndex: Option<int>, isPending: bool) returns (deleteId: Option<string>)
      requires Valid()
      modifies this`pending, this`activePendingIndex, this`annotations, this`activeIndex
      ensures Valid()
      ensures isPending ==>
                pending == RemoveAt(old(pending), annIndex) && annotations == old(annotations) && deleteId.None? &&
                activeIndex == old(activeIndex) &&
                activePendingIndex == (if old(activePendingIndex) == Some(annIndex) then None else old(activePendingIndex))
      ensures !isPending ==>
                pending == old(pending) && activePendingIndex == old(activePendingIndex) &&
                annotations == EraseItems(old(annotations), annIndex, highlightIndex) &&
                deleteId == EraseTarget(old(annotations), annIndex, highlightIndex) &&
                activeIndex == (if 0 <= annIndex < |old(annotations)| && old(activeIndex) == Some(annIndex) then None else old(activeIndex))
    {
      if isPending {
        pending := RemoveAt(pending, annIndex);
        if activePendingIndex == Some(annIndex) {
          activePendingIndex := None;
        }
        return None;
      }
      deleteId := EraseTarget(annotations, annIndex, highlightIndex);
      if 0 <= annIndex < |annotations| && activeIndex == Some(annIndex) {
        activeIndex := None;
      }
      annotations := EraseItems(annotations, annIndex, highlightIndex);
    }
  }

  /** Every stroke in progress, however many moves it had, is a whole number of (x, y) pairs. */
  lemma {:induction false} MovesKeepPairs(d: Draft, moves: seq<Point>)
    requires |d.points| % 2 == 0
    ensures |Trail(d.points, moves)| % 2 == 0 && |Trail(d.points, moves)| == |d.points| + 2 * |moves|
    decreases |moves|
  {
    if |moves| > 0 {
      MovesKeepPairs(d.(points := d.points + [moves[0].x, moves[0].y]), moves[1..]);
    }
  }

  /** The flat list after the moves, each appending its (x, y). */
  function Trail(points: seq<real>, moves: seq<Point>): seq<real>
    decreases |moves|
  {
    if |moves| == 0 then points else Trail(points + [moves[0].x, moves[0].y], moves[1..])
  }
}
