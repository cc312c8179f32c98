/**
 * Zoom and pan of the flip viewer (`useZoom`): stepped zoom buttons, the
 * wheel, mouse panning, two-finger pinch and the swipe test at touch end.
 *
 * Pointer positions are client pixels. `Math.hypot` of the two active pointers
 * is measured by the caller and passed in as `distance`. Updates the source
 * defers to the next animation frame are applied at once.
 */
module FlipZoom {
  import opened Wrappers
  import opened WorkspaceTypes
  import opened WorkspaceUtils

  const ZOOM_MIN: real := 1.0
  const ZOOM_MAX: real := 3.0
  const ZOOM_STEP: real := 0.5
  const ZOOM_DEFAULT: real := 1.5
  /** The horizontal travel, in pixels, beyond which a touch is a page swipe. */
  const SWIPE_MIN: real := 50.0

  const ORIGIN: Point := Point(0.0, 0.0)

  /** `clampZoom`: a zoom level forced into [1, 3]. */
  function ClampZoom(z: real): (r: real)
    ensures ZOOM_MIN <= r <= ZOOM_MAX
    ensures ZOOM_MIN <= z <= ZOOM_MAX ==> r == z
    ensures z < ZOOM_MIN ==> r == ZOOM_MIN
    ensures z > ZOOM_MAX ==> r == ZOOM_MAX
  {
    Min(Max(z, ZOOM_MIN), ZOOM_MAX)
  }

  /**
   * The level a pinch reaches: the level at the pinch's start scaled by how
   * far the fingers moved apart, clamped; a start distance or level of 0
   * counts as 1.
   */
  function PinchZoom(startZoom: real, startDistance: real, distance: real): (z: real)
    ensures ZOOM_MIN <= z <= ZOOM_MAX
    ensures startDistance != 0.0 && startZoom != 0.0 && ZOOM_MIN <= startZoom * (distance / startDistance) <= ZOOM_MAX ==>
              z == startZoom * (distance / startDistance)
    ensures startDistance != 0.0 && distance == startDistance && ZOOM_MIN <= startZoom <= ZOOM_MAX ==> z == startZoom
  {
    var scale := distance / (if startDistance != 0.0 then startDistance else 1.0);
    ClampZoom((if startZoom != 0.0 then startZoom else 1.0) * scale)
  }

  /** The pan a pinch keeps: centred at or below the default level, the pan at the pinch's start above it. */
  function PinchPan(zoom: real, startPan: Point): (p: Point)
    ensures zoom <= ZOOM_DEFAULT ==> p == ORIGIN
    ensures zoom > ZOOM_DEFAULT ==> p == startPan
  {
    if zoom <= ZOOM_DEFAULT then ORIGIN else startPan
  }

  /**
   * Pinching the fingers together from the default level or below always
   * re-centres the page, and the level reached is never above the start.
   */
  lemma PinchInRecentres(startZoom: real, startDistance: real, distance: real, startPan: Point)
    requires ZOOM_MIN <= startZoom <= ZOOM_DEFAULT
    requires 0.0 <= distance <= startDistance && startDistance != 0.0
    ensures PinchZoom(startZoom, startDistance, distance) <= startZoom
    ensures PinchPan(PinchZoom(startZoom, startDistance, distance), startPan) == ORIGIN
  {
    var scale := distance / startDistance;
    QuotientAtMostOne(distance, startDistance);
    assert startZoom * scale <= startZoom by {
      assert startZoom * scale <= startZoom * 1.0;
    }
  }

  /** A share of a positive whole is at most one. */
  lemma QuotientAtMostOne(part: real, whole: real)
    requires 0.0 <= part <= whole && whole > 0.0
    ensures part / whole <= 1.0
  {
    var q := part / whole;
    assert q * whole == part;
  }

  /** The identifiers of an insertion-ordered pointer table. */
  function Ids(ps: seq<(int, Point)>): (r: set<int>)
    ensures |ps| == 0 ==> r == {}
  {
    if |ps| == 0 then {} else {ps[0].0} + Ids(ps[1..])
  }

  predicate UniqueIds(ps: seq<(int, Point)>)
  {
    forall i, j :: 0 <= i < j < |ps| ==> ps[i].0 != ps[j].0
  }

  /** `Map.set`: a known pointer keeps its place with its new position, a new one goes last. */
  function SetPointer(ps: seq<(int, Point)>, id: int, p: Point): (r: seq<(int, Point)>)
    requires UniqueIds(ps)
    ensures UniqueIds(r) && Ids(r) == Ids(ps) + {id}
    ensures id in Ids(ps) ==> |r| == |ps|
    ensures id !in Ids(ps) ==> r == ps + [(id, p)]
    ensures forall k :: 0 <= k < |ps| && ps[k].0 == id ==> r == ps[k := (id, p)]
    ensures forall i :: 0 <= i < |r| ==> (r[i].0 == id ==> r[i].1 == p)
  {
    if |ps| == 0 then [(id, p)]
    else if ps[0].0 == id then
      IdsOfUnique(ps);
      [(id, p)] + ps[1..]
    else
      var rest := SetPointer(ps[1..], id, p);
      IdsOfUnique(ps);
      IdsOfCons(ps[0], rest);
      assert ps[0].0 !in Ids(rest);
      NotInIds(ps[0].0, rest);
      [ps[0]] + rest
  }

  /** `Map.delete`. */
  function DeletePointer(ps: seq<(int, Point)>, id: int): (r: seq<(int, Point)>)
    requires UniqueIds(ps)
    ensures UniqueIds(r) && Ids(r) == Ids(ps) - {id}
    ensures id in Ids(ps) ==> |r| == |ps| - 1
    ensures id !in Ids(ps) ==> r == ps
  {
    if |ps| == 0 then ps
    else if ps[0].0 == id then
      IdsOfUnique(ps);
      ps[1..]
    else
      var rest := DeletePointer(ps[1..], id);
      IdsOfUnique(ps);
      IdsOfCons(ps[0], rest);
      NotInIds(ps[0].0, rest);
      [ps[0]] + rest
  }

  /** Deleting a recorded pointer cuts its entry out and keeps the others in order. */
  lemma {:induction false} DeleteCutsEntry(ps: seq<(int, Point)>, id: int, k: nat)
    requires UniqueIds(ps) && k < |ps| && ps[k].0 == id
    ensures DeletePointer(ps, id) == ps[..k] + ps[k + 1..]
  {
    if k > 0 {
      assert ps[0].0 != id;
      UniqueIdsTail(ps);
      DeleteCutsEntry(ps[1..], id, k - 1);
      CutAfterHead(ps, k);
    }
  }

  lemma UniqueIdsTail(ps: seq<(int, Point)>)
    requires |ps| > 0 && UniqueIds(ps)
    ensures UniqueIds(ps[1..])
  {
    forall i, j | 0 <= i < j < |ps[1..]| ensures ps[1..][i].0 != ps[1..][j].0 {
      assert ps[1..][i] == ps[i + 1] && ps[1..][j] == ps[j + 1];
    }
  }

  /** Cutting entry `k` of a table is keeping its head and cutting entry `k - 1` of its tail. */
  lemma CutAfterHead(ps: seq<(int, Point)>, k: nat)
    requires 0 < k < |ps|
    ensures [ps[0]] + (ps[1..][..k - 1] + ps[1..][k..]) == ps[..k] + ps[k + 1..]
  {
    assert ps[1..][..k - 1] == ps[1..k] && ps[1..][k..] == ps[k + 1..];
    assert ps[..k] == [ps[0]] + ps[1..k];
  }

  lemma IdsOfCons(e: (int, Point), rest: seq<(int, Point)>)
    ensures Ids([e] + rest) == {e.0} + Ids(rest)
  {
    assert ([e] + rest)[1..] == rest;
  }

  /** Splitting a table with unique ids after its first entry. */
  lemma IdsOfUnique(ps: seq<(int, Point)>)
    requires |ps| > 0 && UniqueIds(ps)
    ensures UniqueIds(ps[1..]) && ps[0].0 !in Ids(ps[1..])
    ensures Ids(ps) == {ps[0].0} + Ids(ps[1..])
  {
    NotInIdsOfTail(ps);
  }

  lemma {:induction false} NotInIdsOfTail(ps: seq<(int, Point)>)
    requires |ps| > 0 && UniqueIds(ps)
    ensures ps[0].0 !in Ids(ps[1..])
  {
    IdsMember(ps[1..], ps[0].0);
    assert forall k :: 0 <= k < |ps[1..]| ==> ps[1..][k].0 == ps[k + 1].0;
  }

  lemma {:induction false} IdsMember(ps: seq<(int, Point)>, id: int)
    ensures id in Ids(ps) <==> exists k :: 0 <= k < |ps| && ps[k].0 == id
  {
    if |ps| > 0 {
      IdsMember(ps[1..], id);
      if id in Ids(ps[1..]) {
        var k :| 0 <= k < |ps[1..]| && ps[1..][k].0 == id;
        assert ps[k + 1].0 == id;
      }
      if exists k :: 0 <= k < |ps| && ps[k].0 == id {
        var k :| 0 <= k < |ps| && ps[k].0 == id;
        if k > 0 {
          assert ps[1..][k - 1].0 == id;
        }
      }
    }
  }

  /** A new first entry keeps the ids unique when its id is not among the rest's. */
  lemma NotInIds(id: int, rest: seq<(int, Point)>)
    requires UniqueIds(rest) && id !in Ids(rest)
    ensures forall e: (int, Point) :: e.0 == id ==> UniqueIds([e] + rest)
  {
    forall e: (int, Point) | e.0 == id
      ensures UniqueIds([e] + rest)
    {
      forall i, j | 0 <= i < j < |[e] + rest|
        ensures ([e] + rest)[i].0 != ([e] + rest)[j].0
      {
        if i == 0 {
          IdsMember(rest, id);
          assert ([e] + rest)[j] == rest[j - 1];
        }
      }
    }
  }

  /** `getCenter`: the midpoint of two pointers. */
  function Centre(a: Point, b: Point): (c: Point)
    ensures c.x - a.x == b.x - c.x && c.y - a.y == b.y - c.y
  {
    Point((a.x + b.x) / 2.0, (a.y + b.y) / 2.0)
  }

  /** The swipe a touch end reports: its horizontal travel when it is mostly horizontal and longer than 50 pixels. */
  function Swipe(dx: real, dy: real): (r: Option<real>)
    ensures r.Some? <==> Abs(dx) > Abs(dy) && Abs(dx) > SWIPE_MIN
    ensures r.Some? ==> r.value == dx
  {
    if Abs(dx) > Abs(dy) && Abs(dx) > SWIPE_MIN then Some(dx) else None
  }

  /** Swipes are symmetric: a mirrored travel is the mirrored swipe, and the vertical direction does not matter. */
  lemma SwipeMirror(dx: real, dy: real)
    ensures Swipe(-dx, dy) == (if Swipe(dx, dy).Some? then Some(-dx) else None)
    ensures Swipe(dx, -dy) == Swipe(dx, dy)
    ensures Swipe(dx, dy).Some? ==> Swipe(dy, dx).None?
  {
  }

  class ZoomState {
    var isZoomed: bool
    var zoomLevel: real
    var isDragging: bool
    var dragStart: Point
    var panOffset: Point
    var pointers: seq<(int, Point)>
    var pinchStartDistance: real
    var pinchStartZoom: real
    var pinchStartPan: Point
    var pinchCenter: Point

    /** The level stays in [1, 3]; the level a pinch starts from is a level; pointer ids are distinct. */
    ghost predicate Valid()
      reads this
    {
      ZOOM_MIN <= zoomLevel <= ZOOM_MAX && ZOOM_MIN <= pinchStartZoom <= ZOOM_MAX && UniqueIds(pointers)
    }

    /** The pinch's start distance, level, pan and centre are as they were before the call. */
    twostate predicate PinchUnchanged()
      reads this
    {
      pinchStartDistance == old(pinchStartDistance) && pinchStartZoom == old(pinchStartZoom)
      && pinchStartPan == old(pinchStartPan) && pinchCenter == old(pinchCenter)
    }

    constructor ()
      ensures Valid()
      ensures !isZoomed && zoomLevel == 1.0 && !isDragging && panOffset == ORIGIN && pointers == []
    {
      isZoomed := false;
      zoomLevel := 1.0;
      isDragging := false;
      dragStart := ORIGIN;
      panOffset := ORIGIN;
      pointers := [];
      pinchStartDistance := 0.0;
      pinchStartZoom := 1.0;
      pinchStartPan := ORIGIN;
      pinchCenter := ORIGIN;
    }

    /** `handleZoomIn`: the first step goes to 1.5; then up by 0.5 to at most 3. */
    method ZoomIn()
      requires Valid()
      modifies this`isZoomed, this`zoomLevel
      ensures Valid() && isZoomed
      ensures !old(isZoomed) ==> zoomLevel == ZOOM_DEFAULT
      ensures old(isZoomed) ==> zoomLevel == Min(old(zoomLevel) + ZOOM_STEP, ZOOM_MAX)
      ensures zoomLevel >= old(zoomLevel) || !old(isZoomed)
    {
      if !isZoomed {
        isZoomed := true;
        zoomLevel := ZOOM_DEFAULT;
      } else if zoomLevel < ZOOM_MAX {
        zoomLevel := Min(zoomLevel + ZOOM_STEP, ZOOM_MAX);
      }
    }

    /** `handleZoomOut`: above 1.5 down by 0.5 to at least 1.5, re-centred; otherwise back to the unzoomed page. */
    method ZoomOut()
      requires Valid()
      modifies this`isZoomed, this`zoomLevel, this`panOffset, this`isDragging
      ensures Valid() && panOffset == ORIGIN
      ensures old(zoomLevel) > ZOOM_DEFAULT ==>
                zoomLevel == Max(old(zoomLevel) - ZOOM_STEP, ZOOM_DEFAULT) && isZoomed == old(isZoomed) && isDragging == old(isDragging)
      ensures old(zoomLevel) <= ZOOM_DEFAULT ==> zoomLevel == 1.0 && !isZoomed && !isDragging
    {
      if zoomLevel > ZOOM_DEFAULT {
        zoomLevel := Max(zoomLevel - ZOOM_STEP, ZOOM_DEFAULT);
        panOffset := ORIGIN;
      } else {
        zoomLevel := 1.0;
        isZoomed := false;
        panOffset := ORIGIN;
        isDragging := false;
      }
    }

    /** `handleZoomReset`. */
    method ZoomReset()
      requires Valid()
      modifies this`isZoomed, this`zoomLevel, this`panOffset, this`isDragging
      ensures Valid()
      ensures zoomLevel == 1.0 && !isZoomed && panOffset == ORIGIN && !isDragging
    {
      zoomLevel := 1.0;
      isZoomed := false;
      panOffset := ORIGIN;
      isDragging := false;
    }

    /** `handleWheel`: only while zoomed; scrolling up zooms in, down zooms out. */
    method Wheel(deltaY: real)
      requires Valid()
      modifies this`isZoomed, this`zoomLevel, this`panOffset, this`isDragging
      ensures Valid()
      ensures !old(isZoomed) ==> zoomLevel == old(zoomLevel) && !isZoomed && panOffset == old(panOffset) && isDragging == old(isDragging)
      ensures old(isZoomed) && deltaY < 0.0 ==>
                zoomLevel == Min(old(zoomLevel) + ZOOM_STEP, ZOOM_MAX) && isZoomed
                && panOffset == old(panOffset) && isDragging == old(isDragging)
      ensures old(isZoomed) && deltaY >= 0.0 && old(zoomLevel) > ZOOM_DEFAULT ==>
                zoomLevel == Max(old(zoomLevel) - ZOOM_STEP, ZOOM_DEFAULT) && isZoomed
                && panOffset == ORIGIN && isDragging == old(isDragging)
      ensures old(isZoomed) && deltaY >= 0.0 && old(zoomLevel) <= ZOOM_DEFAULT ==>
                zoomLevel == 1.0 && !isZoomed && panOffset == ORIGIN && !isDragging
    {
      if !isZoomed {
        return;
      }
      if deltaY < 0.0 {
        ZoomIn();
      } else {
        ZoomOut();
      }
    }

    /** `handleMouseDown`: ignored for the eraser; a drag starts only when zoomed and neither drawing nor commenting. */
    method MouseDown(client: Point, isDrawing: bool, isCommentOpen: bool, isEraser: bool)
      modifies this`isDragging, this`dragStart
      ensures isEraser || !isZoomed || isDrawing || isCommentOpen ==> isDragging == old(isDragging) && dragStart == old(dragStart)
      ensures !isEraser && isZoomed && !isDrawing && !isCommentOpen ==>
                isDragging && dragStart == Point(client.x - panOffset.x, client.y - panOffset.y)
    {
      if isEraser {
        return;
      }
      if isZoomed && !isDrawing && !isCommentOpen {
        isDragging := true;
        dragStart := Point(client.x - panOffset.x, client.y - panOffset.y);
      }
    }

    /** `handleMouseMove`: while dragging a zoomed page, the pan follows the pointer from the grab point. */
    method MouseMove(client: Point)
      modifies this`panOffset
      ensures isDragging && isZoomed ==> panOffset == Point(client.x - dragStart.x, client.y - dragStart.y)
      ensures !(isDragging && isZoomed) ==> panOffset == old(panOffset)
    {
      if isDragging && isZoomed {
        panOffset := Point(client.x - dragStart.x, client.y - dragStart.y);
      }
    }

    method MouseUp()
      modifies this`isDragging
      ensures !isDragging
    {
      isDragging := false;
    }

    /**
     * `handlePointerDown`: ignored while drawing, commenting or erasing; a
     * zoomed page starts a pan; the pointer is recorded, and a second pointer
     * starts a pinch from the current level and pan.
     */
    method PointerDown(id: int, client: Point, distance: real, isDrawing: bool, isCommentOpen: bool, isEraser: bool)
      requires Valid()
      modifies this`isDragging, this`dragStart, this`pointers, this`pinchStartDistance, this`pinchStartZoom,
               this`pinchStartPan, this`pinchCenter, this`isZoomed
      ensures Valid()
      ensures isDrawing || isCommentOpen || isEraser ==>
                pointers == old(pointers) && isDragging == old(isDragging) && isZoomed == old(isZoomed)
                && dragStart == old(dragStart) && PinchUnchanged()
      ensures !(isDrawing || isCommentOpen || isEraser) ==>
                pointers == SetPointer(old(pointers), id, client)
                && (old(isZoomed) ==> isDragging && dragStart == Point(client.x - panOffset.x, client.y - panOffset.y))
                && (!old(isZoomed) ==> isDragging == old(isDragging) && dragStart == old(dragStart))
                && (|pointers| != 2 ==> PinchUnchanged())
                && (|pointers| == 2 ==>
                      pinchStartDistance == distance && pinchStartZoom == zoomLevel && pinchStartPan == panOffset
                      && pinchCenter == Centre(pointers[0].1, pointers[1].1)
                      && isZoomed)
                && (|pointers| != 2 ==> isZoomed == old(isZoomed))
    {
      if isDrawing || isCommentOpen || isEraser {
        return;
      }
      if isZoomed {
        isDragging := true;
        dragStart := Point(client.x - panOffset.x, client.y - panOffset.y);
      }
      RecordPointer(id, client, distance);
    }

    /** The pointer is recorded; with a second one down, a pinch starts. */
    method RecordPointer(id: int, client: Point, distance: real)
      requires Valid()
      modifies this`pointers, this`pinchStartDistance, this`pinchStartZoom, this`pinchStartPan, this`pinchCenter, this`isZoomed
      ensures Valid()
      ensures pointers == SetPointer(old(pointers), id, client)
      ensures |pointers| == 2 ==>
                pinchStartDistance == distance && pinchStartZoom == zoomLevel && pinchStartPan == panOffset
                && pinchCenter == Centre(pointers[0].1, pointers[1].1) && isZoomed
      ensures |pointers| != 2 ==> isZoomed == old(isZoomed) && PinchUnchanged()
    {
      pointers := SetPointer(pointers, id, client);
      if |pointers| == 2 {
        StartPinch(distance);
      }
    }

    /** A second pointer: the pinch starts from the current level and pan, and the page counts as zoomed. */
    method StartPinch(distance: real)
      requires Valid() && |pointers| == 2
      modifies this`pinchStartDistance, this`pinchStartZoom, this`pinchStartPan, this`pinchCenter, this`isZoomed
      ensures Valid() && isZoomed
      ensures pinchStartDistance == distance && pinchStartZoom == zoomLevel && pinchStartPan == panOffset
      ensures pinchCenter == Centre(pointers[0].1, pointers[1].1)
    {
      pinchStartDistance := distance;
      pinchStartZoom := zoomLevel;
      pinchStartPan := panOffset;
      pinchCenter := Centre(pointers[0].1, pointers[1].1);
      if !isZoomed {
        isZoomed := true;
      }
    }

    /**
     * `handlePointerMove` of a recorded pointer: with two pointers, the pinch
     * sets the level, zoomed exactly when above 1, and the pan; with one, a
     * zoomed drag pans.
     */
    method PointerMove(id: int, client: Point, distance: real)
      requires Valid()
      modifies this`pointers, this`zoomLevel, this`isZoomed, this`panOffset
      ensures Valid()
      ensures id !in Ids(old(pointers)) ==>
                pointers == old(pointers) && zoomLevel == old(zoomLevel) && isZoomed == old(isZoomed) && panOffset == old(panOffset)
      ensures id in Ids(old(pointers)) ==> pointers == SetPointer(old(pointers), id, client)
      ensures id in Ids(old(pointers)) && |old(pointers)| == 2 ==>
                zoomLevel == PinchZoom(pinchStartZoom, pinchStartDistance, distance)
                && (isZoomed <==> zoomLevel > 1.0)
                && panOffset == PinchPan(zoomLevel, pinchStartPan)
      ensures id in Ids(old(pointers)) && |old(pointers)| != 2 ==>
                zoomLevel == old(zoomLevel) && isZoomed == old(isZoomed)
                && panOffset == (if isDragging && isZoomed then Point(client.x - dragStart.x, client.y - dragStart.y) else old(panOffset))
    {
      if id !in Ids(pointers) {
        return;
      }
      pointers := SetPointer(pointers, id, client);
      if |pointers| == 2 {
        var next := PinchZoom(pinchStartZoom, pinchStartDistance, distance);
        isZoomed := next > 1.0;
        zoomLevel := next;
        panOffset := PinchPan(next, pinchStartPan);
        return;
      }
      if isDragging && isZoomed {
        panOffset := Point(client.x - dragStart.x, client.y - dragStart.y);
      }
    }

    /** `handlePointerUp`: the pointer is forgotten, the pinch ends below two pointers, and any drag ends. */
    method PointerUp(id: int)
      requires Valid()
      modifies this`pointers, this`pinchStartDistance, this`pinchCenter, this`isDragging
      ensures Valid()
      ensures pointers == DeletePointer(old(pointers), id) && id !in Ids(pointers)
      ensures !isDragging
      ensures |pointers| < 2 ==> pinchStartDistance == 0.0 && pinchCenter == ORIGIN
      ensures |pointers| >= 2 ==> pinchStartDistance == old(pinchStartDistance) && pinchCenter == old(pinchCenter)
    {
      pointers := DeletePointer(pointers, id);
      if |pointers| < 2 {
        pinchStartDistance := 0.0;
        pinchCenter := ORIGIN;
      }
      isDragging := false;
    }

    /** `handleTouchStart`: unless drawing, a touch starts a drag from the pan. */
    method TouchStart(touch: Point, isDrawing: bool)
      modifies this`dragStart, this`isDragging
      ensures isDrawing ==> dragStart == old(dragStart) && isDragging == old(isDragging)
      ensures !isDrawing ==> isDragging && dragStart == Point(touch.x - panOffset.x, touch.y - panOffset.y)
    {
      if isDrawing {
        return;
      }
      dragStart := Point(touch.x - panOffset.x, touch.y - panOffset.y);
      isDragging := true;
    }

    /** `handleTouchEnd`: a long horizontal travel is reported as a swipe (and the drag stays); any other end stops the drag. */
    method TouchEnd(touch: Point) returns (swipe: Option<real>)
      modifies this`isDragging
      ensures !old(isDragging) ==> swipe.None? && !isDragging
      ensures old(isDragging) ==> swipe == Swipe(touch.x - dragStart.x, touch.y - dragStart.y)
      ensures old(isDragging) ==> (isDragging <==> swipe.Some?)
    {
      if !isDragging {
        return None;
      }
      swipe := Swipe(touch.x - dragStart.x, touch.y - dragStart.y);
      if swipe.None? {
        isDragging := false;
      }
    }
  }
}
