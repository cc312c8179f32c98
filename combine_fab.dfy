/**
 * The floating button beside the selected clippings: "Combine N clips" while
 * two or more clippings are selected, "Uncombine clip" while the one selected
 * clipping is a combined one, anchored to the right of the anchor's
 * element. The element's box comes from the page layout, passed in as a
 * lookup that gives `None` for an element that is not mounted.
 */
module CombineFab {
  import opened Wrappers
  import opened WorkspaceTypes
  import opened Connectors
  import opened ClippingOps
  import JsText

  datatype ActionKind = CombineAction | UncombineAction

  /** The offered action, on the clipping it is anchored to, with the number of clippings it covers. */
  datatype FabAction = FabAction(kind: ActionKind, clipId: string, count: nat)

  /** Where the button is drawn, in client pixels. */
  datatype FabPosition = FabPosition(left: real, top: real)

  /** What a click on the button asks the workspace to do. */
  datatype Dispatch = CombineSelected | UncombineClip(id: string) | NoDispatch

  /** The gap, in pixels, between the anchor's right edge and the button. */
  const FAB_GAP: real := 12.0

  /**
   * The action the selection calls for, before the anchor is measured: the
   * last selected id anchors a combine of the whole selection; a single
   * selected id anchors an uncombine when the first clipping with that id
   * is a combined one; an empty anchor id offers nothing.
   */
  function NextAction(selectedIds: seq<string>, items: seq<Clipping>): (r: Option<FabAction>)
    ensures |selectedIds| == 0 ==> r.None?
    ensures r.Some? ==> r.value.clipId != "" && r.value.clipId == selectedIds[|selectedIds| - 1]
    ensures (r.Some? && r.value.kind == CombineAction) <==> |selectedIds| >= 2 && selectedIds[|selectedIds| - 1] != ""
    ensures r.Some? && r.value.kind == CombineAction ==> r.value.count == |selectedIds|
    ensures (r.Some? && r.value.kind == UncombineAction) <==>
              |selectedIds| == 1 && selectedIds[0] != "" &&
              FindClip(items, selectedIds[0]).Some? && FindClip(items, selectedIds[0]).value.kind == "combined"
    ensures r.Some? && r.value.kind == UncombineAction ==> r.value.count == 1
  {
    if |selectedIds| == 0 then None
    else if |selectedIds| >= 2 then
      var anchor := selectedIds[|selectedIds| - 1];
      if anchor == "" then None else Some(FabAction(CombineAction, anchor, |selectedIds|))
    else
      match FindClip(items, selectedIds[0])
      case Some(clip) =>
        if clip.kind == "combined" && clip.id != "" then Some(FabAction(UncombineAction, clip.id, 1)) else None
      case None => None
  }

  /** The button sits `FAB_GAP` to the right of the anchor, level with its vertical middle. */
  function PositionBeside(rect: ClientRect): (p: FabPosition)
    ensures p.left == rect.left + rect.width + FAB_GAP
    ensures rect.height >= 0.0 ==> rect.top <= p.top <= rect.top + rect.height
    ensures p.top - rect.top == rect.top + rect.height - p.top
  {
    FabPosition(rect.left + rect.width + FAB_GAP, rect.top + rect.height / 2.0)
  }

  /** `handleClick`: a combine button combines the selection; an uncombine button splits its clipping. */
  function ClickDispatch(action: FabAction): (d: Dispatch)
    ensures action.kind == CombineAction <==> d == CombineSelected
    ensures action.kind == UncombineAction <==> d == UncombineClip(action.clipId)
  {
    match action.kind
    case CombineAction => CombineSelected
    case UncombineAction => UncombineClip(action.clipId)
  }

  /** The button's caption. */
  function Label(action: FabAction): (s: string)
    ensures action.kind == UncombineAction ==> s == "Uncombine clip"
    ensures action.kind == CombineAction ==> s == "Combine " + JsText.NatToString(action.count) + " clips"
  {
    match action.kind
    case CombineAction => "Combine " + JsText.NatToString(action.count) + " clips"
    case UncombineAction => "Uncombine clip"
  }

  /**
   * The button a selection shows: "Combine N clips" for N >= 2 selected
   * clippings, whose click combines the selection; otherwise "Uncombine
   * clip", whose click splits the one selected clipping. A shown button
   * always dispatches something.
   */
  lemma ButtonForSelection(selectedIds: seq<string>, items: seq<Clipping>)
    requires NextAction(selectedIds, items).Some?
    ensures var a := NextAction(selectedIds, items).value;
            Label(a) == (if |selectedIds| >= 2 then "Combine " + JsText.NatToString(|selectedIds|) + " clips" else "Uncombine clip")
    ensures var a := NextAction(selectedIds, items).value;
            ClickDispatch(a) == (if |selectedIds| >= 2 then CombineSelected else UncombineClip(selectedIds[0]))
    ensures ClickDispatch(NextAction(selectedIds, items).value) != NoDispatch
  {
  }

  /**
   * The first clipping with an id is combined exactly when the first
   * combined clipping with that id is at the front of the search for it:
   * the two lookups agree.
   */
  lemma {:induction false} FindClipCombined(items: seq<Clipping>, id: string)
    requires FindClip(items, id).Some? && FindClip(items, id).value.kind == "combined"
    ensures FindCombined(items, id) == FindClip(items, id)
  {
    if items[0].id != id {
      FindClipCombined(items[1..], id);
    }
  }

  /**
   * An uncombine button always names a clipping the workspace's split finds:
   * a click never asks to split something that is not a combined clipping.
   */
  lemma UncombineOfferedIsSplittable(selectedIds: seq<string>, st: ClipState)
    requires NextAction(selectedIds, st.clippings).Some? && NextAction(selectedIds, st.clippings).value.kind == UncombineAction
    ensures var id := NextAction(selectedIds, st.clippings).value.clipId;
            FindCombined(st.clippings, id).Some? && FindCombined(st.clippings, id).value.id == id
  {
    FindClipCombined(st.clippings, selectedIds[0]);
  }

  /** The `MultiClipCombineFab` component's state: the action shown and the button's position. */
  class Fab {
    var action: Option<FabAction>
    var position: Option<FabPosition>

    /** The button is shown with both an action and a position, or not at all. */
    ghost predicate Valid()
      reads this
    {
      action.Some? <==> position.Some?
    }

    constructor ()
      ensures Valid() && action.None? && position.None?
    {
      action := None;
      position := None;
    }

    /**
     * `updateState`: the next action, shown beside its anchor when the anchor
     * is measured; hidden otherwise.
     */
    method UpdateState(selectedIds: seq<string>, items: seq<Clipping>, rectOf: string -> Option<ClientRect>)
      modifies this
      ensures Valid()
      ensures var next := NextAction(selectedIds, items);
              if next.Some? && rectOf(next.value.clipId).Some? then
                action == next && position == Some(PositionBeside(rectOf(next.value.clipId).value))
              else
                action.None? && position.None?
      ensures |selectedIds| == 0 ==> action.None?
    {
      var next := NextAction(selectedIds, items);
      if next.None? {
        position := None;
        action := None;
        return;
      }
      var rect := rectOf(next.value.clipId);
      if rect.None? {
        position := None;
        action := None;
        return;
      }
      action := next;
      position := Some(PositionBeside(rect.value));
    }

    /** The click on a shown button; nothing when the button is hidden. */
    function Click(): (d: Dispatch)
      reads this
      ensures action.None? ==> d == NoDispatch
      ensures action.Some? ==> d == ClickDispatch(action.value)
    {
      if action.Some? then ClickDispatch(action.value) else NoDispatch
    }
  }
}
