/**
 * The flip viewer's annotation store: shapes fetched from the backend per
 * page, the annotations each page reports back, and the save routine that
 * turns a page's new shapes into one payload, skipping shapes the backend
 * already holds and shapes seen earlier on the page.
 *
 * Freehand points are a flat list `[x1, y1, x2, y2, …]` in the viewer and a
 * list of `{x, y}` objects on the wire.
 */
module FlipAnnotations {
  import opened Wrappers
  import opened WorkspaceTypes

  const DEFAULT_STROKE_WIDTH: real := 2.0

  /** A shape as a page reports it; `id` and `tempId` are `None` when absent, and "" counts as no id. */
  datatype Shape = Shape(
    id: Option<string>,
    tempId: Option<string>,
    kind: string,
    x: real, y: real, width: real, height: real,
    points: Option<seq<real>>,
    color: string,
    strokeWidth: Option<real>,
    wireStrokeWidth: Option<real>)      // a `stroke_width` still in wire form

  /** A reported annotation: one shape with its comments, or a group whose highlights share its comments. Comment texts are `None` when absent. */
  datatype Item =
    | ShapeItem(shape: Shape, comments: seq<Option<string>>)
    | GroupItem(groupId: Option<string>, highlights: seq<Shape>, groupComments: seq<Option<string>>)

  /** What a page last reported: its annotations and its pending highlights. */
  datatype Entry = Entry(annotations: seq<Item>, pending: seq<Item>)

  // ---------------------------------------------------------------- points

  /** `flatMap(p => [p.x, p.y])`: the fetched `{x, y}` list as a flat list. */
  function Flatten(pts: seq<Point>): (r: seq<real>)
    ensures |r| == 2 * |pts|
    ensures forall k :: 0 <= k < |pts| ==> r[2 * k] == pts[k].x && r[2 * k + 1] == pts[k].y
  {
    seq(2 * |pts|, j requires 0 <= j < 2 * |pts| => if j % 2 == 0 then pts[j / 2].x else pts[j / 2].y)
  }

  /** A point on the wire; a flat list of odd length leaves the last `y` undefined (`None`). */
  datatype WirePoint = WirePoint(x: real, y: Option<real>)

  /** The `k`-th pair of a flat list. */
  function PairAt(p: seq<real>, k: nat): WirePoint
    requires 2 * k < |p|
  {
    WirePoint(p[2 * k], if 2 * k + 1 < |p| then Some(p[2 * k + 1]) else None)
  }

  /** The flat list read two numbers at a time. */
  function Pairs(p: seq<real>): (r: seq<WirePoint>)
    ensures |r| == (|p| + 1) / 2
  {
    seq((|p| + 1) / 2, k requires 0 <= k < (|p| + 1) / 2 => PairAt(p, k))
  }

  /** `convertPointsForAPI`: one `{x, y}` per two numbers, in order. */
  method ConvertPoints(points: seq<real>) returns (result: seq<WirePoint>)
    ensures result == Pairs(points)
  {
    result := [];
    var i := 0;
    while i < |points|
      invariant 0 <= i && i % 2 == 0 && (i <= |points| || i == |points| + 1)
      invariant |result| == i / 2
      invariant forall k :: 0 <= k < i / 2 ==> result[k] == PairAt(points, k)
      decreases |points| - i
    {
      result := result + [WirePoint(points[i], if i + 1 < |points| then Some(points[i + 1]) else None)];
      i := i + 2;
    }
  }

  /** Points fetched, flattened and converted back for saving come out as they were fetched. */
  lemma PairsOfFlatten(pts: seq<Point>)
    ensures Pairs(Flatten(pts)) == seq(|pts|, k requires 0 <= k < |pts| => WirePoint(pts[k].x, Some(pts[k].y)))
  {
  }

  /** The wire points as viewer points; an undefined `y` reads as 0. */
  function Unpair(q: seq<WirePoint>): (r: seq<Point>)
    ensures |r| == |q| && forall k :: 0 <= k < |q| ==> r[k] == Point(q[k].x, OrElse(q[k].y, 0.0))
  {
    seq(|q|, k requires 0 <= k < |q| => Point(q[k].x, OrElse(q[k].y, 0.0)))
  }

  /** A flat list of whole pairs converts with every `y` defined, and flattens back to itself. */
  lemma FlattenOfPairs(p: seq<real>)
    requires |p| % 2 == 0
    ensures forall k :: 0 <= k < |Pairs(p)| ==> Pairs(p)[k].y.Some?
    ensures Flatten(Unpair(Pairs(p))) == p
  {
    var q := Pairs(p);
    var f := Flatten(Unpair(q));
    assert |q| * 2 == |p|;
    forall k | 0 <= k < |q|
      ensures f[2 * k] == p[2 * k] && f[2 * k + 1] == p[2 * k + 1]
    {
      assert q[k] == PairAt(p, k);
    }
    forall j | 0 <= j < |p|
      ensures f[j] == p[j]
    {
      var k := j / 2;
      if j % 2 == 0 {
        assert j == 2 * k;
      } else {
        assert j == 2 * k + 1;
      }
    }
  }

  // ---------------------------------------------------------------- fetched shapes

  /** A shape in a fetched page entry, with the fields the conversion reads. */
  datatype ShapeData = ShapeData(
    id: Option<string>,
    kind: string,
    x: real, y: real, width: real, height: real,
    points: Option<seq<Point>>,
    color: string,
    wireStrokeWidth: Option<real>,
    strokeWidth: Option<real>,
    comments: seq<Option<string>>)

  /** The shape the viewer keeps for a fetched one: "highlight" is called "rect", points are flattened, and the stroke width defaults to 2. */
  function FromFetched(d: ShapeData): (it: Item)
    ensures it.ShapeItem? && it.shape.id == d.id && it.shape.kind != "highlight"
    ensures it.shape.kind == (if d.kind == "highlight" then "rect" else d.kind)
    ensures it.shape.strokeWidth == Some(OrElse(d.wireStrokeWidth, OrElse(d.strokeWidth, DEFAULT_STROKE_WIDTH)))
    ensures d.points.Some? ==> it.shape.points == Some(Flatten(d.points.value))
    ensures d.points.None? ==> it.shape.points.None?
    ensures it.comments == d.comments
  {
    var kind := if d.kind == "highlight" then "rect" else d.kind;
    var sw := if d.wireStrokeWidth.Some? then d.wireStrokeWidth.value else OrElse(d.strokeWidth, DEFAULT_STROKE_WIDTH);
    var points := if d.points.Some? then Some(Flatten(d.points.value)) else None;
    ShapeItem(Shape(d.id, None, kind, d.x, d.y, d.width, d.height, points, d.color, Some(sw), None), d.comments)
  }

  // ---------------------------------------------------------------- change reports

  /** The viewer's record of what each page last reported. */
  class LocalAnnotations {
    var byPage: map<int, Entry>

    constructor ()
      ensures byPage == map[]
    {
      byPage := map[];
    }

    /** The entry of a page, an empty one when the page never reported. */
    function EntryOf(pageNum: int): (e: Entry)
      reads this
      ensures pageNum in byPage ==> e == byPage[pageNum]
      ensures pageNum !in byPage ==> e == Entry([], [])
    {
      if pageNum in byPage then byPage[pageNum] else Entry([], [])
    }

    /**
     * `handleAnnotationsChange`: a report equal to the page's current entry
     * leaves the record as it is; any other report replaces the page's entry.
     * Either way the page's entry is then the report.
     */
    method AnnotationsChange(pageNum: int, anns: seq<Item>, pending: seq<Item>)
      modifies this
      ensures EntryOf(pageNum) == Entry(anns, pending)
      ensures old(EntryOf(pageNum)) == Entry(anns, pending) ==> byPage == old(byPage)
      ensures old(EntryOf(pageNum)) != Entry(anns, pending) ==> byPage == old(byPage)[pageNum := Entry(anns, pending)]
      ensures forall p :: p != pageNum ==> (p in byPage <==> p in old(byPage))
      ensures forall p :: p != pageNum && p in byPage ==> byPage[p] == old(byPage)[p]
    {
      var prevEntry := EntryOf(pageNum);
      if prevEntry == Entry(anns, pending) {
        return;
      }
      byPage := byPage[pageNum := Entry(anns, pending)];
    }
  }

  // ---------------------------------------------------------------- save

  /** The truthy id a shape is de-duplicated by: `id ?? tempId`, "" for none. */
  function KeyId(s: Shape): string
  {
    match s.id
    case Some(i) => i
    case None => OrElse(s.tempId, "")
  }

  /** What the fingerprint string of a shape without an id encodes. */
  datatype Fingerprint =
    | FreehandPrint(points: seq<real>, color: string, width: real)
    | RectPrint(x: real, y: real, width: real, height: real, color: string)

  /** `fingerprint`: freehand by points, colour and width; anything else by its box and colour. Missing values print like 0 or "". */
  function FingerprintOf(s: Shape): Fingerprint
  {
    if s.kind == "freehand" then
      FreehandPrint(OrElse(s.points, []), s.color, match s.strokeWidth case Some(w) => w case None => 0.0)
    else RectPrint(s.x, s.y, s.width, s.height, s.color)
  }

  /** A shape offered for saving with the comments it carries. */
  datatype Candidate = Candidate(shape: Shape, comments: seq<Option<string>>)

  /** `processAnnotationItem`: a group offers each of its highlights with the group's comments; a shape offers itself with its own. */
  function ItemCandidates(item: Item): (r: seq<Candidate>)
    ensures item.GroupItem? ==>
              |r| == |item.highlights| &&
              forall k :: 0 <= k < |r| ==> r[k] == Candidate(item.highlights[k], item.groupComments)
    ensures item.ShapeItem? ==> r == [Candidate(item.shape, item.comments)]
  {
    match item
    case ShapeItem(s, cs) => [Candidate(s, cs)]
    case GroupItem(_, hs, cs) => seq(|hs|, k requires 0 <= k < |hs| => Candidate(hs[k], cs))
  }

  function Candidates(items: seq<Item>): seq<Candidate>
  {
    if |items| == 0 then [] else ItemCandidates(items[0]) + Candidates(items[1..])
  }

  /** The ids the backend already holds for a page: every truthy shape or group id, and the ids of a group's highlights. */
  function ServerIds(items: seq<Item>): set<string>
  {
    if |items| == 0 then {}
    else ItemServerIds(items[0]) + ServerIds(items[1..])
  }

  function TruthyId(o: Option<string>): set<string>
  {
    if o.Some? && o.value != "" then {o.value} else {}
  }

  function ItemServerIds(item: Item): set<string>
  {
    match item
    case ShapeItem(s, _) => TruthyId(s.id)
    case GroupItem(g, hs, _) => TruthyId(g) + HighlightIds(hs)
  }

  function HighlightIds(hs: seq<Shape>): set<string>
  {
    if |hs| == 0 then {} else TruthyId(hs[0].id) + HighlightIds(hs[1..])
  }

  /** The ids and fingerprints already sent on this page. */
  datatype Seen = Seen(ids: set<string>, prints: set<Fingerprint>)

  /** `addShape`'s decision: the updated record when the shape is sent, `None` when it is skipped. */
  function Admit(s: Shape, server: set<string>, seen: Seen): (r: Option<Seen>)
    ensures KeyId(s) != "" ==>
              (r.Some? <==> KeyId(s) !in server && KeyId(s) !in seen.ids) &&
              (r.Some? ==> r.value == seen.(ids := seen.ids + {KeyId(s)}))
    ensures KeyId(s) == "" ==>
              (r.Some? <==> FingerprintOf(s) !in seen.prints) &&
              (r.Some? ==> r.value == seen.(prints := seen.prints + {FingerprintOf(s)}))
  {
    var id := KeyId(s);
    if id != "" then
      if id in server || id in seen.ids then None else Some(seen.(ids := seen.ids + {id}))
    else
      var fp := FingerprintOf(s);
      if fp in seen.prints then None else Some(seen.(prints := seen.prints + {fp}))
  }

  /** The candidates sent, in order. */
  function Kept(cs: seq<Candidate>, server: set<string>, seen: Seen): seq<Candidate>
  {
    if |cs| == 0 then []
    else match Admit(cs[0].shape, server, seen)
      case Some(next) => [cs[0]] + Kept(cs[1..], server, next)
      case None => Kept(cs[1..], server, seen)
  }

  /** Only offered shapes are sent, and none whose id the backend already holds. */
  lemma {:induction false} KeptNotOnServer(cs: seq<Candidate>, server: set<string>, seen: Seen)
    ensures forall c :: c in Kept(cs, server, seen) ==> c in cs && (KeyId(c.shape) == "" || KeyId(c.shape) !in server)
  {
    if |cs| > 0 {
      match Admit(cs[0].shape, server, seen)
      case Some(next) => KeptNotOnServer(cs[1..], server, next);
      case None => KeptNotOnServer(cs[1..], server, seen);
    }
  }

  /** A sent shape's id or fingerprint was not already recorded as sent. */
  lemma {:induction false} KeptFresh(cs: seq<Candidate>, server: set<string>, seen: Seen)
    ensures forall c :: c in Kept(cs, server, seen) ==>
              (KeyId(c.shape) != "" ==> KeyId(c.shape) !in seen.ids) &&
              (KeyId(c.shape) == "" ==> FingerprintOf(c.shape) !in seen.prints)
  {
    if |cs| > 0 {
      match Admit(cs[0].shape, server, seen)
      case Some(next) => KeptFresh(cs[1..], server, next);
      case None => KeptFresh(cs[1..], server, seen);
    }
  }

  /** No id is sent twice, and no fingerprint of a shape without an id is sent twice. */
  predicate SentOnce(k: seq<Candidate>)
  {
    forall i, j :: 0 <= i < j < |k| ==>
      (KeyId(k[i].shape) != "" ==> KeyId(k[i].shape) != KeyId(k[j].shape)) &&
      (KeyId(k[i].shape) == "" && KeyId(k[j].shape) == "" ==> FingerprintOf(k[i].shape) != FingerprintOf(k[j].shape))
  }

  /** Within a page, each id, and each fingerprint of a shape without one, is sent at most once. */
  lemma {:induction false} KeptOnce(cs: seq<Candidate>, server: set<string>, seen: Seen)
    ensures SentOnce(Kept(cs, server, seen))
  {
    if |cs| > 0 {
      match Admit(cs[0].shape, server, seen)
      case Some(next) =>
        KeptOnce(cs[1..], server, next);
        KeptFresh(cs[1..], server, next);
        var k := Kept(cs, server, seen);
        assert k[1..] == Kept(cs[1..], server, next);
        forall i, j | 0 <= i < j < |k|
          ensures (KeyId(k[i].shape) != "" ==> KeyId(k[i].shape) != KeyId(k[j].shape)) &&
                  (KeyId(k[i].shape) == "" && KeyId(k[j].shape) == "" ==> FingerprintOf(k[i].shape) != FingerprintOf(k[j].shape))
        {
          assert k[j] == k[1..][j - 1];
          if i == 0 {
            assert k[j] in Kept(cs[1..], server, next);
          } else {
            assert k[i] == k[1..][i - 1];
          }
        }
      case None =>
        KeptOnce(cs[1..], server, seen);
    }
  }

  /**
   * Nothing new is lost: every offered shape whose id the backend does not
   * hold is sent, or a shape with the same id (or, without an id, the same
   * fingerprint) was sent before it or was already recorded.
   */
  lemma {:induction false} KeptCovers(cs: seq<Candidate>, server: set<string>, seen: Seen)
    ensures forall c :: c in cs && KeyId(c.shape) != "" && KeyId(c.shape) !in server ==>
              KeyId(c.shape) in seen.ids || exists d :: d in Kept(cs, server, seen) && KeyId(d.shape) == KeyId(c.shape)
    ensures forall c :: c in cs && KeyId(c.shape) == "" ==>
              FingerprintOf(c.shape) in seen.prints ||
              exists d :: d in Kept(cs, server, seen) && KeyId(d.shape) == "" && FingerprintOf(d.shape) == FingerprintOf(c.shape)
  {
    if |cs| > 0 {
      var c0 := cs[0];
      match Admit(c0.shape, server, seen)
      case Some(next) =>
        KeptCovers(cs[1..], server, next);
        assert c0 in Kept(cs, server, seen);
        assert forall d :: d in Kept(cs[1..], server, next) ==> d in Kept(cs, server, seen);
      case None =>
        KeptCovers(cs[1..], server, seen);
        assert forall d :: d in Kept(cs[1..], server, seen) ==> d in Kept(cs, server, seen);
    }
  }

  /** The geometry sent for a shape. */
  datatype Geometry = WirePoints(points: seq<WirePoint>) | WireRect(x: real, y: real, width: real, height: real) | NoGeometry

  /** A shape object of the payload. `comments` is `None` when the field is left out. */
  datatype WireShape = WireShape(kind: string, color: string, strokeWidth: real, geometry: Geometry, comments: Option<seq<string>>)

  function CommentTexts(cs: seq<Option<string>>): (r: seq<string>)
    ensures |r| == |cs| && forall k :: 0 <= k < |cs| ==> r[k] == OrElse(cs[k], "")
  {
    seq(|cs|, k requires 0 <= k < |cs| => OrElse(cs[k], ""))
  }

  /** The shape object `addShape` builds. */
  function ToWire(c: Candidate): (w: WireShape)
    ensures w.kind == c.shape.kind && w.color == c.shape.color
    ensures w.strokeWidth == OrElse(c.shape.strokeWidth, OrElse(c.shape.wireStrokeWidth, DEFAULT_STROKE_WIDTH))
    ensures c.shape.kind == "freehand" && c.shape.points.Some? ==> w.geometry == WirePoints(Pairs(c.shape.points.value))
    ensures (c.shape.kind == "rect" || c.shape.kind == "highlight") ==>
              w.geometry == WireRect(c.shape.x, c.shape.y, c.shape.width, c.shape.height)
    ensures |c.comments| > 0 ==> w.comments == Some(CommentTexts(c.comments))
    ensures |c.comments| == 0 ==> w.comments.None?
  {
    var s := c.shape;
    var sw := if s.strokeWidth.Some? then s.strokeWidth.value else OrElse(s.wireStrokeWidth, DEFAULT_STROKE_WIDTH);
    var geometry :=
      if s.kind == "freehand" && s.points.Some? then WirePoints(Pairs(s.points.value))
      else if s.kind == "rect" || s.kind == "highlight" then WireRect(s.x, s.y, s.width, s.height)
      else NoGeometry;
    WireShape(s.kind, s.color, sw, geometry, if |c.comments| > 0 then Some(CommentTexts(c.comments)) else None)
  }

  function WireAll(cs: seq<Candidate>): (r: seq<WireShape>)
    ensures |r| == |cs| && forall k :: 0 <= k < |cs| ==> r[k] == ToWire(cs[k])
  {
    seq(|cs|, k requires 0 <= k < |cs| => ToWire(cs[k]))
  }

  /** A page's shapes to save: new annotations, then pending highlights, each once, none the backend holds. */
  function PageShapes(server: seq<Item>, entry: Entry): seq<WireShape>
  {
    WireAll(Kept(Candidates(entry.annotations + entry.pending), server := ServerIds(server), seen := Seen({}, {})))
  }

  /** Every highlight of a group is sent with the group's comment texts. */
  lemma GroupHighlightsCarryComments(item: Item, k: int)
    requires item.GroupItem? && 0 <= k < |item.highlights| && |item.groupComments| > 0
    ensures ToWire(ItemCandidates(item)[k]).comments == Some(CommentTexts(item.groupComments))
  {
  }

  lemma CandidatesAppend(a: seq<Item>, b: seq<Item>)
    ensures Candidates(a + b) == Candidates(a) + Candidates(b)
  {
    if |a| > 0 {
      assert (a + b)[1..] == a[1..] + b;
      CandidatesAppend(a[1..], b);
    } else {
      assert a + b == b;
    }
  }

  lemma CandidatesCons(items: seq<Item>, i: int)
    requires 0 <= i < |items|
    ensures Candidates(items[i..]) == ItemCandidates(items[i]) + Candidates(items[i + 1..])
  {
    assert items[i..][1..] == items[i + 1..];
  }

  /** `serverShapeIds`, collected by walking the page's fetched items and their highlights. */
  method CollectServerIds(server: seq<Item>) returns (ids: set<string>)
    ensures ids == ServerIds(server)
  {
    ids := {};
    var i := 0;
    while i < |server|
      invariant 0 <= i <= |server|
      invariant ids + ServerIds(server[i..]) == ServerIds(server)
    {
      assert server[i..][1..] == server[i + 1..];
      var item := server[i];
      if item.ShapeItem? {
        if item.shape.id.Some? && item.shape.id.value != "" {
          ids := ids + {item.shape.id.value};
        }
      } else {
        if item.groupId.Some? && item.groupId.value != "" {
          ids := ids + {item.groupId.value};
        }
        var j := 0;
        var hs := item.highlights;
        while j < |hs|
          invariant 0 <= j <= |hs|
          invariant ids + HighlightIds(hs[j..]) + ServerIds(server[i + 1..]) == ServerIds(server)
        {
          assert hs[j..][1..] == hs[j + 1..];
          if hs[j].id.Some? && hs[j].id.value != "" {
            ids := ids + {hs[j].id.value};
          }
          j := j + 1;
        }
      }
      i := i + 1;
    }
  }

  /** One `addShape` call on the running state: `shapes`, `seenIds` and `seenFP`. */
  method AddShape(c: Candidate, server: set<string>, seen: Seen, shapes: seq<WireShape>) returns (seen': Seen, shapes': seq<WireShape>)
    ensures Admit(c.shape, server, seen).Some? ==> seen' == Admit(c.shape, server, seen).value && shapes' == shapes + [ToWire(c)]
    ensures Admit(c.shape, server, seen).None? ==> seen' == seen && shapes' == shapes
  {
    seen', shapes' := seen, shapes;
    var id := KeyId(c.shape);
    if id != "" && id in server {
      return;
    }
    if id != "" {
      if id in seen.ids {
        return;
      }
      seen' := seen.(ids := seen.ids + {id});
    } else {
      var fp := FingerprintOf(c.shape);
      if fp in seen.prints {
        return;
      }
      seen' := seen.(prints := seen.prints + {fp});
    }
    shapes' := shapes + [ToWire(c)];
  }

  /** Sending the first of the remaining candidates extends what was sent by it. */
  lemma KeptStep(cs: seq<Candidate>, server: set<string>, seen: Seen)
    requires |cs| > 0
    ensures Admit(cs[0].shape, server, seen).Some? ==>
              Kept(cs, server, seen) == [cs[0]] + Kept(cs[1..], server, Admit(cs[0].shape, server, seen).value)
    ensures Admit(cs[0].shape, server, seen).None? ==> Kept(cs, server, seen) == Kept(cs[1..], server, seen)
  {
  }

  /** `addShape` on each of one item's candidates in turn; `rest` is what the page offers after them. */
  method AddCandidates(cs: seq<Candidate>, ghost rest: seq<Candidate>, server: set<string>, seen: Seen, shapes: seq<WireShape>)
    returns (seen': Seen, shapes': seq<WireShape>, ghost added: seq<Candidate>)
    ensures shapes' == shapes + WireAll(added)
    ensures Kept(cs + rest, server, seen) == added + Kept(rest, server, seen')
  {
    seen', shapes', added := seen, shapes, [];
    var j: nat := 0;
    while j < |cs|
      invariant j <= |cs|
      invariant SentUpTo(cs, rest, server, seen, shapes, j, seen', shapes', added)
    {
      seen', shapes', added := AddCandidateAt(cs, rest, server, seen, shapes, j, seen', shapes', added);
      j := j + 1;
    }
    assert cs[j..] + rest == rest;
  }

  /**
   * After the first `j` candidates from `seen0` and `shapes0`: `added` are the
   * ones sent, `shapes` holds their wire form, and `seen` leaves the rest to
   * be sent as from the start.
   */
  ghost predicate SentUpTo(cs: seq<Candidate>, rest: seq<Candidate>, server: set<string>, seen0: Seen, shapes0: seq<WireShape>,
                           j: nat, seen: Seen, shapes: seq<WireShape>, added: seq<Candidate>)
    requires j <= |cs|
  {
    shapes == shapes0 + WireAll(added) && Kept(cs + rest, server, seen0) == added + Kept(cs[j..] + rest, server, seen)
  }

  /** One turn of the candidate loop: `addShape` on candidate `j`. */
  method AddCandidateAt(cs: seq<Candidate>, ghost rest: seq<Candidate>, server: set<string>, ghost seen0: Seen,
                        ghost shapes0: seq<WireShape>, j: nat, seen: Seen, shapes: seq<WireShape>, ghost added: seq<Candidate>)
    returns (seen': Seen, shapes': seq<WireShape>, ghost added': seq<Candidate>)
    requires j < |cs|
    requires SentUpTo(cs, rest, server, seen0, shapes0, j, seen, shapes, added)
    ensures SentUpTo(cs, rest, server, seen0, shapes0, j + 1, seen', shapes', added')
  {
    ghost var admitted := Admit(cs[j].shape, server, seen);
    seen', shapes' := AddShape(cs[j], server, seen, shapes);
    if admitted.Some? {
      SentAdmitted(cs, rest, server, seen0, shapes0, j, seen, shapes, added);
      added' := added + [cs[j]];
    } else {
      SentRefused(cs, rest, server, seen0, shapes0, j, seen, shapes, added);
      added' := added;
    }
  }

  /** An admitted candidate is sent and recorded. */
  lemma SentAdmitted(cs: seq<Candidate>, rest: seq<Candidate>, server: set<string>, seen0: Seen, shapes0: seq<WireShape>,
                     j: nat, seen: Seen, shapes: seq<WireShape>, added: seq<Candidate>)
    requires j < |cs| && Admit(cs[j].shape, server, seen).Some?
    requires SentUpTo(cs, rest, server, seen0, shapes0, j, seen, shapes, added)
    ensures SentUpTo(cs, rest, server, seen0, shapes0, j + 1, Admit(cs[j].shape, server, seen).value,
                     shapes + [ToWire(cs[j])], added + [cs[j]])
  {
    var tail := cs[j..] + rest;
    var next := Admit(cs[j].shape, server, seen).value;
    assert tail[1..] == cs[j + 1..] + rest;
    assert tail[0] == cs[j];
    KeptStep(tail, server, seen);
    var later := Kept(cs[j + 1..] + rest, server, next);
    assert Kept(tail, server, seen) == [cs[j]] + later;
    assert added + ([cs[j]] + later) == (added + [cs[j]]) + later;
    WireAllAppend(added, [cs[j]]);
  }

  /** A refused candidate changes nothing. */
  lemma SentRefused(cs: seq<Candidate>, rest: seq<Candidate>, server: set<string>, seen0: Seen, shapes0: seq<WireShape>,
                    j: nat, seen: Seen, shapes: seq<WireShape>, added: seq<Candidate>)
    requires j < |cs| && Admit(cs[j].shape, server, seen).None?
    requires SentUpTo(cs, rest, server, seen0, shapes0, j, seen, shapes, added)
    ensures SentUpTo(cs, rest, server, seen0, shapes0, j + 1, seen, shapes, added)
  {
    assert (cs[j..] + rest)[1..] == cs[j + 1..] + rest;
    assert (cs[j..] + rest)[0] == cs[j];
    KeptStep(cs[j..] + rest, server, seen);
  }

  /**
   * The body of the page loop in `saveAnnotations`: every local annotation
   * and then every pending highlight goes through `processAnnotationItem`.
   */
  method SavePageShapes(server: seq<Item>, entry: Entry) returns (shapes: seq<WireShape>)
    ensures shapes == PageShapes(server, entry)
  {
    var serverIds := CollectServerIds(server);
    shapes := AddItems(entry.annotations + entry.pending, serverIds);
  }

  /** `processAnnotationItem` on each item in turn, from an empty record of what was sent. */
  method AddItems(items: seq<Item>, serverIds: set<string>) returns (shapes: seq<WireShape>)
    ensures shapes == WireAll(Kept(Candidates(items), serverIds, Seen({}, {})))
  {
    ghost var total := Kept(Candidates(items), serverIds, Seen({}, {}));
    ghost var sent: seq<Candidate> := [];
    var seen := Seen({}, {});
    shapes := [];
    var i := 0;
    while i < |items|
      invariant 0 <= i <= |items|
      invariant shapes == WireAll(sent)
      invariant sent + Kept(Candidates(items[i..]), serverIds, seen) == total
    {
      ghost var before := seen;
      ghost var added;
      seen, shapes, added := AddCandidates(ItemCandidates(items[i]), Candidates(items[i + 1..]), serverIds, seen, shapes);
      AddItemsStep(items, i, serverIds, sent, added, before, seen, total);
      WireAllAppend(sent, added);
      sent := sent + added;
      i := i + 1;
    }
    assert items[i..] == [];
  }

  lemma AddItemsStep(items: seq<Item>, i: int, server: set<string>, sent: seq<Candidate>, added: seq<Candidate>,
                     before: Seen, after: Seen, total: seq<Candidate>)
    requires 0 <= i < |items|
    requires sent + Kept(Candidates(items[i..]), server, before) == total
    requires Kept(ItemCandidates(items[i]) + Candidates(items[i + 1..]), server, before) ==
             added + Kept(Candidates(items[i + 1..]), server, after)
    ensures (sent + added) + Kept(Candidates(items[i + 1..]), server, after) == total
  {
    CandidatesCons(items, i);
  }

  lemma WireAllAppend(a: seq<Candidate>, b: seq<Candidate>)
    ensures WireAll(a + b) == WireAll(a) + WireAll(b)
  {
  }

  /** The payload saved for one page: its number and its shapes. */
  datatype PagePayload = PagePayload(pageNumber: int, shapes: seq<WireShape>)

  /**
   * The page loop of `saveAnnotations` for pages `1 … pagesCount`, where
   * `pagesCount` is `pageImages.length || totalPages || 0`: one payload per
   * page that has something new, in page order. Without a document id
   * nothing is saved.
   */
  method SavePlan(hasPdfId: bool, pagesCount: int, server: map<int, seq<Item>>, local: map<int, Entry>)
    returns (payloads: seq<PagePayload>)
    ensures !hasPdfId || pagesCount <= 0 ==> payloads == []
    ensures forall k :: 0 <= k < |payloads| ==>
              1 <= payloads[k].pageNumber <= pagesCount && |payloads[k].shapes| > 0 &&
              payloads[k].shapes == PageShapes(ServerOf(server, payloads[k].pageNumber), EntryIn(local, payloads[k].pageNumber))
    ensures forall k, l :: 0 <= k < l < |payloads| ==> payloads[k].pageNumber < payloads[l].pageNumber
    ensures hasPdfId ==> forall p :: 1 <= p <= pagesCount && |PageShapes(ServerOf(server, p), EntryIn(local, p))| > 0 ==>
              exists k :: 0 <= k < |payloads| && payloads[k].pageNumber == p
  {
    payloads := [];
    if !hasPdfId || pagesCount <= 0 {
      return;
    }
    ghost var want := (p: int) => PageShapes(ServerOf(server, p), EntryIn(local, p));
    payloads := PlanPages(server, local, pagesCount, want);
    PlannedPages(payloads, server, local, pagesCount, want);
  }

  /** The page loop proper, over pages `1 … count`. */
  method PlanPages(server: map<int, seq<Item>>, local: map<int, Entry>, count: nat, ghost want: int -> seq<WireShape>)
    returns (payloads: seq<PagePayload>)
    requires forall p :: want(p) == PageShapes(ServerOf(server, p), EntryIn(local, p))
    ensures PlannedUpTo(payloads, want, count)
  {
    payloads := [];
    var done: nat := 0;
    while done < count
      invariant done <= count
      invariant PlannedUpTo(payloads, want, done)
    {
      payloads := PlanPage(payloads, server, local, done, want);
      done := done + 1;
    }
  }

  /** The plan for pages `1 … n`, spelled out with each page's new shapes. */
  lemma PlannedPages(payloads: seq<PagePayload>, server: map<int, seq<Item>>, local: map<int, Entry>, n: int,
                     want: int -> seq<WireShape>)
    requires forall p :: want(p) == PageShapes(ServerOf(server, p), EntryIn(local, p))
    requires PlannedUpTo(payloads, want, n)
    ensures forall k :: 0 <= k < |payloads| ==>
              1 <= payloads[k].pageNumber <= n && |payloads[k].shapes| > 0 &&
              payloads[k].shapes == PageShapes(ServerOf(server, payloads[k].pageNumber), EntryIn(local, payloads[k].pageNumber))
    ensures forall k, l :: 0 <= k < l < |payloads| ==> payloads[k].pageNumber < payloads[l].pageNumber
    ensures forall p :: 1 <= p <= n && |PageShapes(ServerOf(server, p), EntryIn(local, p))| > 0 ==>
              exists k :: 0 <= k < |payloads| && payloads[k].pageNumber == p
  {
    forall p | 1 <= p <= n && |PageShapes(ServerOf(server, p), EntryIn(local, p))| > 0
      ensures exists k :: 0 <= k < |payloads| && payloads[k].pageNumber == p
    {
      assert |want(p)| > 0;
    }
  }

  /**
   * The payloads planned for pages `1 … n`, where `want(p)` is page `p`'s new
   * shapes: each payload names one of those pages and holds its new shapes,
   * in page order, and every one of those pages with new shapes has a payload.
   */
  ghost predicate PlannedUpTo(payloads: seq<PagePayload>, want: int -> seq<WireShape>, n: int)
  {
    (forall k :: 0 <= k < |payloads| ==>
       1 <= payloads[k].pageNumber <= n && |payloads[k].shapes| > 0 && payloads[k].shapes == want(payloads[k].pageNumber))
    && (forall k, l :: 0 <= k < l < |payloads| ==> payloads[k].pageNumber < payloads[l].pageNumber)
    && (forall p :: 1 <= p <= n && |want(p)| > 0 ==> exists k :: 0 <= k < |payloads| && payloads[k].pageNumber == p)
  }

  /** One turn of the page loop: page `n + 1` gets a payload when it has new shapes. */
  method PlanPage(payloads: seq<PagePayload>, server: map<int, seq<Item>>, local: map<int, Entry>, n: nat,
                  ghost want: int -> seq<WireShape>)
    returns (payloads': seq<PagePayload>)
    requires forall p :: want(p) == PageShapes(ServerOf(server, p), EntryIn(local, p))
    requires PlannedUpTo(payloads, want, n)
    ensures PlannedUpTo(payloads', want, n + 1)
  {
    var page := n + 1;
    var shapes := SavePageShapes(ServerOf(server, page), EntryIn(local, page));
    assert shapes == want(page);
    if |shapes| == 0 {
      PlannedSkip(payloads, want, n);
      return payloads;
    }
    PlannedAppend(payloads, want, n);
    payloads' := payloads + [PagePayload(page, shapes)];
  }

  /** A page with nothing new leaves the plan as it was. */
  lemma PlannedSkip(payloads: seq<PagePayload>, want: int -> seq<WireShape>, n: nat)
    requires PlannedUpTo(payloads, want, n)
    requires |want(n + 1)| == 0
    ensures PlannedUpTo(payloads, want, n + 1)
  {
  }

  /** A page with new shapes is planned after every earlier page. */
  lemma PlannedAppend(payloads: seq<PagePayload>, want: int -> seq<WireShape>, n: nat)
    requires PlannedUpTo(payloads, want, n)
    requires |want(n + 1)| > 0
    ensures PlannedUpTo(payloads + [PagePayload(n + 1, want(n + 1))], want, n + 1)
  {
    var page := n + 1;
    var payloads' := payloads + [PagePayload(page, want(page))];
    forall p | 1 <= p <= page && |want(p)| > 0
      ensures exists k :: 0 <= k < |payloads'| && payloads'[k].pageNumber == p
    {
      if p == page {
        assert payloads'[|payloads|].pageNumber == p;
      } else {
        var k :| 0 <= k < |payloads| && payloads[k].pageNumber == p;
        assert payloads'[k].pageNumber == p;
      }
    }
  }

  /** A page's fetched items, none when nothing was fetched for it. */
  function ServerOf(server: map<int, seq<Item>>, p: int): seq<Item>
  {
    if p in server then server[p] else []
  }

  /** A page's last report, an empty one when it never reported. */
  function EntryIn(local: map<int, Entry>, p: int): Entry
  {
    if p in local then local[p] else Entry([], [])
  }

  /** A page that reported nothing, or only shapes the backend holds, yields no payload. */
  lemma NothingNewNoShapes(server: seq<Item>, entry: Entry)
    requires forall c :: c in Candidates(entry.annotations + entry.pending) ==>
               KeyId(c.shape) != "" && KeyId(c.shape) in ServerIds(server)
    ensures PageShapes(server, entry) == []
  {
    KeptNoneNew(Candidates(entry.annotations + entry.pending), ServerIds(server), Seen({}, {}));
  }

  lemma {:induction false} KeptNoneNew(cs: seq<Candidate>, server: set<string>, seen: Seen)
    requires forall c :: c in cs ==> KeyId(c.shape) != "" && KeyId(c.shape) in server
    ensures Kept(cs, server, seen) == []
  {
    if |cs| > 0 {
      assert cs[0] in cs;
      KeptNoneNew(cs[1..], server, seen);
    }
  }
}
