/**
 * The drawing-tool switches of the flip viewer (`useDrawingTools`): drawing,
 * freehand, freehand-with-comment, comment-open and the eraser, with the
 * current colour and brush size.
 */
module DrawingTools {
  /** The brush sizes the palette offers. */
  const BRUSH_SIZES: seq<int> := [2, 4, 8, 12, 20]

  /** The request `activateTool` takes; absent flags are `false`. */
  datatype ToolRequest = ToolRequest(drawing: bool, freehand: bool, freehandWithComment: bool, eraser: bool)

  class ToolState {
    var isDrawing: bool
    var isFreehand: bool
    var freehandWithComment: bool
    var isCommentOpen: bool
    var highlightColor: string
    var brushSize: int
    var isEraser: bool

    /** The hook's initial switches: only freehand-with-comment is on. */
    constructor ()
      ensures !isDrawing && !isFreehand && freehandWithComment && !isCommentOpen && !isEraser
      ensures highlightColor == "#fffb00" && brushSize == 4
    {
      isDrawing := false;
      isFreehand := false;
      freehandWithComment := true;
      isCommentOpen := false;
      highlightColor := "#fffb00";
      brushSize := 4;
      isEraser := false;
    }

    /** `isInteractionActive`: a drawing or an open comment blocks page turning. */
    function IsInteractionActive(): (b: bool)
      reads this
      ensures b <==> isDrawing || isCommentOpen
      ensures isEraser && !isCommentOpen ==> (b <==> isDrawing)
    {
      isDrawing || isCommentOpen
    }

    /**
     * `activateTool`: with the eraser flag the eraser toggles, and turning it on
     * switches every drawing mode and the comment off; without it the eraser
     * goes off and the three drawing switches take the requested values, the
     * comment closing when one of them is on.
     */
    method ActivateTool(req: ToolRequest)
      modifies this`isEraser, this`isDrawing, this`isFreehand, this`freehandWithComment, this`isCommentOpen
      ensures !(isEraser && isDrawing)
      ensures req.eraser ==> isEraser == !old(isEraser)
      ensures req.eraser && isEraser ==> !isDrawing && !isFreehand && !freehandWithComment && !isCommentOpen
      ensures req.eraser && !isEraser ==>
                isDrawing == old(isDrawing) && isFreehand == old(isFreehand)
                && freehandWithComment == old(freehandWithComment) && isCommentOpen == old(isCommentOpen)
      ensures !req.eraser ==>
                !isEraser && isDrawing == req.drawing && isFreehand == req.freehand
                && freehandWithComment == req.freehandWithComment
                && isCommentOpen == (if req.drawing || req.freehand || req.freehandWithComment then false else old(isCommentOpen))
      ensures req.eraser && isEraser ==> !IsInteractionActive()
      ensures !req.eraser && (req.drawing || req.freehand || req.freehandWithComment) ==> (IsInteractionActive() <==> req.drawing)
      ensures !req.eraser && !req.drawing && !req.freehand && !req.freehandWithComment ==>
                IsInteractionActive() == old(isCommentOpen)
    {
      if req.eraser {
        var next := !isEraser;
        isEraser := next;
        if next {
          isDrawing := false;
          isFreehand := false;
          freehandWithComment := false;
          isCommentOpen := false;
        }
      } else {
        isEraser := false;
        isDrawing := req.drawing;
        isFreehand := req.freehand;
        freehandWithComment := req.freehandWithComment;
        if req.drawing || req.freehand || req.freehandWithComment {
          isCommentOpen := false;
        }
      }
    }

    /** `toggleEraser`: turning the eraser on stops drawing and freehand; the comment switches stay. */
    method ToggleEraser()
      modifies this`isEraser, this`isDrawing, this`isFreehand
      ensures isEraser == !old(isEraser)
      ensures !(isEraser && isDrawing)
      ensures isEraser ==> !isDrawing && !isFreehand
      ensures !isEraser ==> isDrawing == old(isDrawing) && isFreehand == old(isFreehand)
      ensures isEraser ==> (IsInteractionActive() <==> isCommentOpen)
      ensures !isEraser ==> IsInteractionActive() == old(IsInteractionActive())
    {
      isEraser := !isEraser;
      if isEraser {
        isDrawing := false;
        isFreehand := false;
      }
    }

    method SetBrushSize(size: int)
      modifies this`brushSize
      ensures brushSize == size
    {
      brushSize := size;
    }

    method SetHighlightColor(color: string)
      modifies this`highlightColor
      ensures highlightColor == color
    {
      highlightColor := color;
    }
  }
}
