/** The geometry and id helpers shared by the document workspace. */
module WorkspaceUtils {
  import opened Wrappers
  import opened JsText
  import opened WorkspaceTypes

  function Min(a: real, b: real): real { if a <= b then a else b }
  function Max(a: real, b: real): real { if a >= b then a else b }

  /** `Math.min(Math.max(v, lo), hi)` */
  function Clamp(v: real, lo: real, hi: real): (r: real)
    ensures r <= hi
    ensures lo <= hi ==> lo <= r
    ensures lo <= v <= hi ==> r == v
    ensures v < lo && lo <= hi ==> r == lo
    ensures v > hi ==> r == hi
  {
    Min(Max(v, lo), hi)
  }

  function Abs(v: real): (r: real)
    ensures r >= 0.0 && (r == v || r == -v)
  {
    if v < 0.0 then -v else v
  }

  // ---------------------------------------------------------------- ids

  const ANNOTATION_ID_PREFIX: string := "ann"
  const CLIPPING_ID_PREFIX: string := "clip"
  const BOOKMARK_ID_PREFIX: string := "bm"

  /** `${prefix}-${now}-${n}` */
  function FormatId(prefix: string, now: nat, n: nat): string
  {
    prefix + "-" + NatToString(now) + "-" + NatToString(n)
  }

  /** The run of digits at the end of `s`. */
  function TrailingDigits(s: string): (r: string)
    ensures AllDigits(r)
  {
    if |s| > 0 && IsDigit(s[|s| - 1]) then TrailingDigits(s[..|s| - 1]) + [s[|s| - 1]] else ""
  }

  /** The number the counter wrote at the end of an id. */
  function TrailingNumber(s: string): nat
  {
    DigitsValue(TrailingDigits(s))
  }

  lemma {:induction false} TrailingDigitsAfterDash(p: string, d: string)
    requires AllDigits(d)
    ensures TrailingDigits(p + "-" + d) == d
  {
    if |d| == 0 {
      assert (p + "-")[|p + "-"| - 1] == '-';
    } else {
      var s := p + "-" + d;
      assert s[..|s| - 1] == p + "-" + d[..|d| - 1];
      TrailingDigitsAfterDash(p, d[..|d| - 1]);
      assert d[..|d| - 1] + [d[|d| - 1]] == d;
    }
  }

  /** The counter can be read back from every id a generator formats. */
  lemma TrailingNumberOfFormatId(prefix: string, now: nat, n: nat)
    ensures TrailingNumber(FormatId(prefix, now, n)) == n
  {
    TrailingDigitsAfterDash(prefix + "-" + NatToString(now), NatToString(n));
  }

  /**
   * One of the id generators `createAnnotationId`, `createClippingId` and
   * `createBookmarkId`: a private counter that is incremented before every id
   * is formatted. `issued` records the ids handed out so far.
   */
  class IdGenerator {
    const prefix: string
    var counter: nat
    ghost var issued: set<string>

    ghost predicate Valid()
      reads this
    {
      forall id :: id in issued ==> TrailingNumber(id) <= counter
    }

    constructor (prefix: string)
      ensures Valid() && this.prefix == prefix && counter == 0 && issued == {}
    {
      this.prefix := prefix;
      counter := 0;
      issued := {};
    }

    /** `() => `${prefix}-${Date.now()}-${++counter}``, with the clock reading passed in. */
    method Next(now: nat) returns (id: string)
      requires Valid()
      modifies this
      ensures Valid()
      ensures counter == old(counter) + 1
      ensures id == FormatId(prefix, now, counter)
      ensures id !in old(issued)
      ensures issued == old(issued) + {id}
    {
      counter := counter + 1;
      id := FormatId(prefix, now, counter);
      TrailingNumberOfFormatId(prefix, now, counter);
      issued := issued + {id};
    }
  }

  // ---------------------------------------------------------------- items

  /** `item?.type || 'clip'` */
  function ItemType(item: WorkspaceItem): (t: string)
    ensures item.itemType == "" ==> t == "clip"
    ensures item.itemType != "" ==> t == item.itemType
  {
    if item.itemType == "" then "clip" else item.itemType
  }

  /**
   * `item?.sourceId || item?.clippingId`. An absent field is written "" here,
   * where the source yields `undefined`; both are falsy and every reader goes
   * through `||`, so the two readings agree.
   */
  function ItemSourceId(item: WorkspaceItem): (s: string)
    ensures item.sourceId != "" ==> s == item.sourceId
    ensures item.sourceId == "" ==> s == item.clippingId
  {
    if item.sourceId != "" then item.sourceId else item.clippingId
  }

  /**
   * A card reads back what it was made with: the type it was given, or
   * "clip" for a card stored without one, so a read type is never empty;
   * and its source id, or for a card stored with only the older
   * `clippingId` field that field, which is empty only when both are.
   */
  lemma CardReadsBack(id: string, itemType: string, sourceId: string, clippingId: string, x: real, y: real)
    ensures var it := WorkspaceItem(id, itemType, sourceId, clippingId, x, y);
            ItemType(it) != "" && (itemType != "" ==> ItemType(it) == itemType)
            && (ItemType(it) == "comment" ==> itemType == "comment")
    ensures var it := WorkspaceItem(id, itemType, sourceId, clippingId, x, y);
            (sourceId != "" ==> ItemSourceId(it) == sourceId)
            && (sourceId == "" ==> ItemSourceId(it) == clippingId)
            && (ItemSourceId(it) == "" <==> sourceId == "" && clippingId == "")
  {
  }

  // ---------------------------------------------------------------- geometry

  function MinOf(xs: seq<real>): (m: real)
    requires |xs| > 0
    ensures forall i :: 0 <= i < |xs| ==> m <= xs[i]
    ensures exists i :: 0 <= i < |xs| && m == xs[i]
  {
    if |xs| == 1 then xs[0]
    else
      var m := MinOf(xs[1..]);
      assert forall i :: 1 <= i < |xs| ==> xs[1..][i - 1] == xs[i];
      Min(xs[0], m)
  }

  function MaxOf(xs: seq<real>): (m: real)
    requires |xs| > 0
    ensures forall i :: 0 <= i < |xs| ==> m >= xs[i]
    ensures exists i :: 0 <= i < |xs| && m == xs[i]
  {
    if |xs| == 1 then xs[0]
    else
      var m := MaxOf(xs[1..]);
      assert forall i :: 1 <= i < |xs| ==> xs[1..][i - 1] == xs[i];
      Max(xs[0], m)
  }

  function Xs(points: seq<Point>): (xs: seq<real>)
    ensures |xs| == |points| && forall i :: 0 <= i < |points| ==> xs[i] == points[i].x
  {
    seq(|points|, i requires 0 <= i < |points| => points[i].x)
  }

  function Ys(points: seq<Point>): (ys: seq<real>)
    ensures |ys| == |points| && forall i :: 0 <= i < |points| ==> ys[i] == points[i].y
  {
    seq(|points|, i requires 0 <= i < |points| => points[i].y)
  }

  const MIN_BOUNDING_SIZE: real := 0.005

  /** One axis of the bounding box: the extent of the values, at least 0.005. */
  function AxisSize(vs: seq<real>): (w: real)
    requires |vs| > 0
    ensures w >= MIN_BOUNDING_SIZE
  {
    Max(MaxOf(vs) - MinOf(vs), MIN_BOUNDING_SIZE)
  }

  /** One axis of the bounding box: the least value, pulled back so that the box ends by 1. */
  function AxisStart(vs: seq<real>): real
    requires |vs| > 0
  {
    Clamp(MinOf(vs), 0.0, 1.0 - AxisSize(vs))
  }

  /** `getBoundingRectFromPoints`: `None` for no points, otherwise the clamped box, at least 0.005 wide and high. */
  function BoundingRect(points: seq<Point>): (r: Option<Rect>)
    ensures r.None? <==> |points| == 0
    ensures r.Some? ==> r.value.width >= MIN_BOUNDING_SIZE && r.value.height >= MIN_BOUNDING_SIZE
  {
    if |points| == 0 then None
    else Some(Rect(AxisStart(Xs(points)), AxisStart(Ys(points)), AxisSize(Xs(points)), AxisSize(Ys(points))))
  }

  predicate InUnitSquare(p: Point) { 0.0 <= p.x <= 1.0 && 0.0 <= p.y <= 1.0 }

  predicate Covers(r: Rect, p: Point) { r.x <= p.x <= r.x + r.width && r.y <= p.y <= r.y + r.height }

  /** One axis of `BoundingRect`: for values in [0,1] the clamped span stays in [0,1] and covers them all. */
  lemma ClampedSpanCovers(vs: seq<real>)
    requires |vs| > 0
    requires forall i :: 0 <= i < |vs| ==> 0.0 <= vs[i] <= 1.0
    ensures 0.0 <= AxisStart(vs) && AxisStart(vs) + AxisSize(vs) <= 1.0
    ensures forall i :: 0 <= i < |vs| ==> AxisStart(vs) <= vs[i] <= AxisStart(vs) + AxisSize(vs)
  {
    var lo, hi := MinOf(vs), MaxOf(vs);
    var j :| 0 <= j < |vs| && lo == vs[j];
    var k :| 0 <= k < |vs| && hi == vs[k];
    ClampedSpan(lo, hi);
  }

  /** The clamped span of [lo, hi] inside [0,1]. */
  lemma ClampedSpan(lo: real, hi: real)
    requires 0.0 <= lo <= hi <= 1.0
    ensures var w := Max(hi - lo, MIN_BOUNDING_SIZE);
            var x := Clamp(lo, 0.0, 1.0 - w);
            0.0 <= x && x + w <= 1.0 && x <= lo && hi <= x + w
  {
    var w := Max(hi - lo, MIN_BOUNDING_SIZE);
    var x := Clamp(lo, 0.0, 1.0 - w);
    if lo <= 1.0 - w { assert x == lo; } else { assert x == 1.0 - w; }
  }

  /** For points in the unit square the bounding rect stays inside the page and covers every point. */
  lemma BoundingRectCoversPoints(points: seq<Point>)
    requires |points| > 0
    requires forall i :: 0 <= i < |points| ==> InUnitSquare(points[i])
    ensures var r := BoundingRect(points).value;
            0.0 <= r.x && r.x + r.width <= 1.0 && 0.0 <= r.y && r.y + r.height <= 1.0
            && forall i :: 0 <= i < |points| ==> Covers(r, points[i])
  {
    ClampedSpanCovers(Xs(points));
    ClampedSpanCovers(Ys(points));
  }

  /** `getPrimaryPageFromSource`: the integer before the first comma, or 1 when it does not parse. */
  function PrimaryPage(source: string): int
  {
    match ParseInt(Split(source, ',')[0])
    case Some(n) => n
    case None => 1
  }

  /** A combined clip's "3, 5" gives page 3; a single page number gives itself. */
  lemma PrimaryPageOfPageList(first: nat, rest: string)
    ensures PrimaryPage(NatToString(first) + "," + rest) == first
    ensures PrimaryPage(NatToString(first)) == first
  {
    var f := NatToString(first);
    assert ',' !in f;
    SplitFirst(f, rest, ',');
    assert f + "," + rest == f + [','] + rest;
    ParseIntOfNatToString(first, "");
    assert f + "" == f;
    SplitNoSep(f, ',');
  }

  /**
   * The page a source names is decided by its first comma piece alone: the
   * integer that piece starts with (after white space and a sign), and 1 when
   * it does not start with one, as for "p3, 4" or "".
   */
  lemma PrimaryPageDefault(first: string, rest: string)
    requires ',' !in first
    ensures !StartsWithInteger(first) ==> PrimaryPage(first + "," + rest) == 1 && PrimaryPage(first) == 1
    ensures StartsWithInteger(first) ==> PrimaryPage(first + "," + rest) == ParseInt(first).value == PrimaryPage(first)
  {
    assert first + "," + rest == first + [','] + rest;
    SplitFirst(first, rest, ',');
    SplitNoSep(first, ',');
    ParseIntDefined(first);
  }

  lemma {:induction false} FirstPieceIsPrefix(s: string, sep: char)
    ensures |Split(s, sep)[0]| <= |s| && Split(s, sep)[0] == s[..|Split(s, sep)[0]|]
  {
    if |s| > 0 {
      FirstPieceIsPrefix(s[1..], sep);
    }
  }

  /** `getNormalizedPoint`: the client position relative to the element box, as a fraction of its size. */
  function NormalizedPoint(clientX: real, clientY: real, box: ClientRect): (p: Point)
    requires box.width != 0.0 && box.height != 0.0
    ensures p.x * box.width + box.left == clientX
    ensures p.y * box.height + box.top == clientY
  {
    Point((clientX - box.left) / box.width, (clientY - box.top) / box.height)
  }

  const MIN_PRESSURE: real := 0.25
  const MAX_PRESSURE: real := 1.35

  /** `getPointerPressure`; `None` stands for an event whose `pressure` is not a number. */
  function PointerPressure(enabled: bool, pressure: Option<real>): (r: real)
    ensures MIN_PRESSURE <= r <= MAX_PRESSURE
    ensures !enabled || pressure.None? ==> r == 1.0
    ensures enabled && pressure.Some? && pressure.value <= 0.0 ==> r == 1.0
    ensures enabled && pressure.Some? && MIN_PRESSURE <= pressure.value <= MAX_PRESSURE ==> r == pressure.value
  {
    if !enabled then 1.0
    else match pressure
      case None => 1.0
      case Some(p) =>
        var raw := if p > 0.0 then p else 1.0;
        Clamp(raw, MIN_PRESSURE, MAX_PRESSURE)
  }
}
