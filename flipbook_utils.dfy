/**
 * Layout helpers of the flip viewer: the book's size on screen, the mobile
 * test, the container's class list and the page counter text. The window's
 * inner size is passed in.
 */
module FlipbookUtils {
  import opened Wrappers
  import opened JsText

  /** The margin, in pixels, kept around the book. */
  const MARGIN: int := 100
  /** The widest a desktop spread may be. */
  const DESKTOP_MAX_WIDTH: int := 1000
  const DEFAULT_MOBILE_BREAKPOINT: int := 768

  datatype BookSize = BookSize(width: int, height: int)

  /** `Math.floor` of `x / ratio`, for a positive ratio. */
  function FloorDiv(x: int, ratio: real): (r: int)
    requires ratio > 0.0
    ensures r as real <= x as real / ratio < r as real + 1.0
  {
    (x as real / ratio).Floor
  }

  /** `Math.floor(x * ratio)`. */
  function FloorMul(x: int, ratio: real): (r: int)
    ensures r as real <= x as real * ratio < r as real + 1.0
  {
    (x as real * ratio).Floor
  }

  /**
   * `calculateBookSize` on a window of `innerWidth` × `innerHeight`: the
   * widest page (mobile: one page of the window's width less the margin;
   * desktop: a spread of two pages, at most 1000 wide) whose height, rounded
   * down, fits the window's height less the margin; when it does not fit,
   * the height is that limit and the width follows from the ratio.
   */
  function CalculateBookSize(pageAspectRatio: real, isMobile: bool, innerWidth: int, innerHeight: int): (r: BookSize)
    requires pageAspectRatio > 0.0
    ensures r.height <= innerHeight - MARGIN
    ensures r.width <= StartWidth(isMobile, innerWidth)
  {
    var screenHeight := innerHeight - MARGIN;
    var ratio := if isMobile then pageAspectRatio else pageAspectRatio * 2.0;
    var width := StartWidth(isMobile, innerWidth);
    var height := FloorDiv(width, ratio);
    if height > screenHeight then
      FitsUnder(screenHeight, width, ratio, height);
      BookSize(FloorMul(screenHeight, ratio), screenHeight)
    else
      BookSize(width, height)
  }

  /** The width the book starts from: `min(innerWidth − 100, maxWidth)`, where a phone's maximum is its own width less the margin. */
  function StartWidth(isMobile: bool, innerWidth: int): (w: int)
    ensures w <= innerWidth - MARGIN
    ensures !isMobile ==> w <= DESKTOP_MAX_WIDTH
  {
    var screenWidth := innerWidth - MARGIN;
    var maxWidth := if isMobile then innerWidth - MARGIN else DESKTOP_MAX_WIDTH;
    if screenWidth <= maxWidth then screenWidth else maxWidth
  }

  /** When the rounded-down height overflows `limit`, the width the limit gives is below the starting width. */
  lemma FitsUnder(limit: int, width: int, ratio: real, height: int)
    requires ratio > 0.0 && height > limit
    requires height as real <= width as real / ratio
    ensures FloorMul(limit, ratio) <= width
  {
    var l := limit as real;
    assert l < width as real / ratio;
    assert l * ratio < (width as real / ratio) * ratio by {
      MulRight(l, width as real / ratio, ratio);
    }
    assert (width as real / ratio) * ratio == width as real;
  }

  lemma MulRight(a: real, b: real, c: real)
    requires a < b && c > 0.0
    ensures a * c < b * c
  {
    assert b * c - a * c == (b - a) * c;
  }

  /** The page's aspect ratio the size is computed from: the ratio itself on a phone, twice it for a desktop spread. */
  lemma SizeUsesSpreadRatio(pageAspectRatio: real, innerWidth: int, innerHeight: int)
    requires pageAspectRatio > 0.0
    ensures CalculateBookSize(pageAspectRatio, false, innerWidth, innerHeight).height
            == Min(FloorDiv(StartWidth(false, innerWidth), pageAspectRatio * 2.0), innerHeight - MARGIN)
    ensures CalculateBookSize(pageAspectRatio, true, innerWidth, innerHeight).height
            == Min(FloorDiv(StartWidth(true, innerWidth), pageAspectRatio), innerHeight - MARGIN)
  {
  }

  function Min(a: int, b: int): int { if a <= b then a else b }

  /**
   * The book the mobile test sizes: on a window the test calls mobile the
   * book is never wider than the breakpoint less the margin, and on any
   * other window never wider than the 1000-pixel desktop spread.
   */
  lemma BookFitsDeviceClass(pageAspectRatio: real, innerWidth: int, innerHeight: int, breakpoint: int)
    requires pageAspectRatio > 0.0
    ensures IsMobileDevice(innerWidth, breakpoint) ==>
              CalculateBookSize(pageAspectRatio, IsMobileDevice(innerWidth, breakpoint), innerWidth, innerHeight).width <= breakpoint - MARGIN
    ensures !IsMobileDevice(innerWidth, breakpoint) ==>
              CalculateBookSize(pageAspectRatio, IsMobileDevice(innerWidth, breakpoint), innerWidth, innerHeight).width <= DESKTOP_MAX_WIDTH
    ensures IsMobileDevice(innerWidth, DEFAULT_MOBILE_BREAKPOINT) ==>
              CalculateBookSize(pageAspectRatio, true, innerWidth, innerHeight).width <= DEFAULT_MOBILE_BREAKPOINT - MARGIN
  {
  }

  /** `isMobileDevice`: the window is no wider than the breakpoint. */
  function IsMobileDevice(innerWidth: int, breakpoint: int): (b: bool)
    ensures b <==> innerWidth <= breakpoint
    ensures b && breakpoint <= DEFAULT_MOBILE_BREAKPOINT ==> innerWidth <= DEFAULT_MOBILE_BREAKPOINT
  {
    innerWidth <= breakpoint
  }

  /** The viewer state `getFlipbookClasses` reads. */
  datatype ViewState = ViewState(isDragging: bool, isZoomed: bool, isDrawing: bool, isCommentOpen: bool, isInteractionActive: bool)

  /** The class names of the book's container, in order. */
  function FlipbookClassList(s: ViewState): (r: seq<string>)
    ensures |r| >= 1 && r[0] == "flipbook"
    ensures "dragging" in r <==> s.isDragging
    ensures "zoomedGrab" in r <==> s.isZoomed && !s.isDrawing && !s.isCommentOpen && !s.isDragging
    ensures "zoomedGrabbing" in r <==> s.isZoomed && !s.isDrawing && !s.isCommentOpen && s.isDragging
    ensures "interacting" in r <==> s.isInteractionActive
    ensures |r| <= 4
  {
    var grab := if s.isZoomed && !s.isDrawing && !s.isCommentOpen then [if s.isDragging then "zoomedGrabbing" else "zoomedGrab"] else [];
    ["flipbook"] + (if s.isDragging then ["dragging"] else []) + grab + (if s.isInteractionActive then ["interacting"] else [])
  }

  /**
   * `getFlipbookClasses`: the class names separated by single spaces. The
   * string starts with "flipbook", and splitting it at its spaces reads back
   * exactly the class list, so every class the list promises is a word of it.
   */
  function FlipbookClasses(s: ViewState): (r: string)
    ensures |r| >= |"flipbook"| && r[..|"flipbook"|] == "flipbook"
    ensures Split(r, ' ') == FlipbookClassList(s)
  {
    var list := FlipbookClassList(s);
    JoinStartsWithFirst(list, " ");
    assert forall i :: 0 <= i < |list| ==> ' ' !in list[i];
    SplitJoin(list, ' ');
    Join(list, " ")
  }

  /** A joined list starts with its first part. */
  lemma JoinStartsWithFirst(parts: seq<string>, sep: string)
    requires |parts| >= 1
    ensures |Join(parts, sep)| >= |parts[0]| && Join(parts, sep)[..|parts[0]|] == parts[0]
  {
    if |parts| > 1 {
      JoinCons(parts, sep);
      assert (parts[0] + sep + Join(parts[1..], sep))[..|parts[0]|] == parts[0];
    }
  }

  lemma JoinCons(parts: seq<string>, sep: string)
    requires |parts| > 1
    ensures Join(parts, sep) == parts[0] + sep + Join(parts[1..], sep)
  {
  }

  /** `formatPageNumber`: "current / total". */
  function FormatPageNumber(current: int, total: int): (r: string)
    ensures ParseInt(r) == Some(current)
    ensures var n := |IntToString(current)|;
            |r| >= n + 3 && r[n..n + 3] == " / " && ParseInt(r[n + 3..]) == Some(total)
  {
    ParseIntOfIntToString(current, " / " + IntToString(total));
    ParseIntOfIntToString(total, []);
    assert IntToString(total) + [] == IntToString(total);
    assert IntToString(current) + " / " + IntToString(total) == IntToString(current) + (" / " + IntToString(total));
    IntToString(current) + " / " + IntToString(total)
  }
}
