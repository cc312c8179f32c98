/**
 * The document eraser: one dab on a page removes the first annotation, in list
 * order, that lies on that page and is touched by the pointer.
 */
module WorkspaceErase {
  import opened Wrappers
  import opened WorkspaceTypes
  import opened HitTest
  import opened StableSort

  /** The annotation is on `page` and the pointer touches it. */
  predicate ErasedBy(a: Annotation, page: int, p: Point, overlay: Option<Dimensions>)
  {
    a.pageNumber == page && AnnotationHits(a, p, overlay)
  }

  /** The index of the first annotation at or after `from` that the dab touches. */
  function FirstHitFrom(prev: seq<Annotation>, page: int, p: Point, overlay: Option<Dimensions>, from: nat): (r: Option<nat>)
    requires from <= |prev|
    ensures r.Some? ==> from <= r.value < |prev| && ErasedBy(prev[r.value], page, p, overlay)
    ensures r.Some? ==> forall j :: from <= j < r.value ==> !ErasedBy(prev[j], page, p, overlay)
    ensures r.None? ==> forall j :: from <= j < |prev| ==> !ErasedBy(prev[j], page, p, overlay)
    decreases |prev| - from
  {
    if from == |prev| then None
    else if ErasedBy(prev[from], page, p, overlay) then Some(from)
    else FirstHitFrom(prev, page, p, overlay, from + 1)
  }

  function FirstHit(prev: seq<Annotation>, page: int, p: Point, overlay: Option<Dimensions>): Option<nat>
  {
    FirstHitFrom(prev, page, p, overlay, 0)
  }

  /** The list left after the dab: the first touched annotation taken out, or the list itself. */
  function Erased(prev: seq<Annotation>, page: int, p: Point, overlay: Option<Dimensions>): seq<Annotation>
  {
    match FirstHit(prev, page, p, overlay)
    case None => prev
    case Some(k) => prev[..k] + prev[k + 1..]
  }

  /**
   * The updater inside `eraseAnnotationsAtPoint`: copy the list, skipping the
   * first touched annotation on the page; `changed` reports whether one was skipped.
   */
  method EraseFirstHit(prev: seq<Annotation>, page: int, p: Point, overlay: Option<Dimensions>)
    returns (next: seq<Annotation>, changed: bool)
    ensures next == Erased(prev, page, p, overlay)
    ensures changed <==> FirstHit(prev, page, p, overlay).Some?
  {
    changed := false;
    next := [];
    ghost var k := 0;
    var i := 0;
    while i < |prev|
      invariant 0 <= i <= |prev|
      invariant !changed ==> next == prev[..i] && NoHitBefore(prev, page, p, overlay, i)
      invariant changed ==> k < i && ErasedBy(prev[k], page, p, overlay) && NoHitBefore(prev, page, p, overlay, k)
      invariant changed ==> next == prev[..k] + prev[k + 1..i]
    {
      var annotation := prev[i];
      if !changed && annotation.pageNumber == page {
        var hit := DoesAnnotationHitPoint(annotation, p, overlay);
        if hit {
          changed := true;
          k := i;
          i := i + 1;
          continue;
        }
      }
      ghost var before := next;
      next := next + [annotation];
      if changed {
        assert prev[k + 1..i + 1] == prev[k + 1..i] + [prev[i]];
      } else {
        NoHitBeforeNext(prev, page, p, overlay, i);
        assert prev[..i + 1] == prev[..i] + [prev[i]];
      }
      i := i + 1;
    }
    if !changed {
      assert prev[..i] == prev;
      FirstHitNone(prev, page, p, overlay);
      return prev, false;
    }
    FirstHitIs(prev, page, p, overlay, k);
    assert prev[k + 1..i] == prev[k + 1..];
  }

  /** No annotation before index `n` is touched by the dab. */
  predicate NoHitBefore(prev: seq<Annotation>, page: int, p: Point, overlay: Option<Dimensions>, n: nat)
    requires n <= |prev|
  {
    forall j :: 0 <= j < n ==> !ErasedBy(prev[j], page, p, overlay)
  }

  lemma NoHitBeforeNext(prev: seq<Annotation>, page: int, p: Point, overlay: Option<Dimensions>, n: nat)
    requires n < |prev| && NoHitBefore(prev, page, p, overlay, n) && !ErasedBy(prev[n], page, p, overlay)
    ensures NoHitBefore(prev, page, p, overlay, n + 1)
  {
  }

  lemma FirstHitIs(prev: seq<Annotation>, page: int, p: Point, overlay: Option<Dimensions>, k: nat)
    requires k < |prev| && ErasedBy(prev[k], page, p, overlay)
    requires forall j :: 0 <= j < k ==> !ErasedBy(prev[j], page, p, overlay)
    ensures FirstHit(prev, page, p, overlay) == Some(k)
  {
  }

  lemma FirstHitNone(prev: seq<Annotation>, page: int, p: Point, overlay: Option<Dimensions>)
    requires forall j :: 0 <= j < |prev| ==> !ErasedBy(prev[j], page, p, overlay)
    ensures FirstHit(prev, page, p, overlay) == None
  {
  }

  /**
   * One dab removes at most one annotation: the first one in list order that is
   * on the page and touched. Nothing is removed, and the list is returned as it
   * was, exactly when no annotation on the page is touched.
   */
  lemma EraseRemovesFirstHitOnly(prev: seq<Annotation>, page: int, p: Point, overlay: Option<Dimensions>)
    ensures var next := Erased(prev, page, p, overlay);
            (next == prev <==> forall j :: 0 <= j < |prev| ==> !ErasedBy(prev[j], page, p, overlay))
    ensures var next := Erased(prev, page, p, overlay);
            next != prev ==>
              exists k :: 0 <= k < |prev| && ErasedBy(prev[k], page, p, overlay) &&
                (forall j :: 0 <= j < k ==> !ErasedBy(prev[j], page, p, overlay)) &&
                next == prev[..k] + prev[k + 1..]
  {
    var next := Erased(prev, page, p, overlay);
    match FirstHit(prev, page, p, overlay)
    case None =>
    case Some(k) =>
      assert |next| == |prev| - 1;
  }

  /** The annotation the dab removes is on the dab's page and is a highlight, a line or a stroke, never a note. */
  lemma EraseRemovesOnlyTargets(prev: seq<Annotation>, page: int, p: Point, overlay: Option<Dimensions>)
    requires FirstHit(prev, page, p, overlay).Some?
    ensures var a := prev[FirstHit(prev, page, p, overlay).value];
            a.pageNumber == page && a.kind in ERASER_TARGET_TYPES && a.kind != "comment"
  {
    var k := FirstHit(prev, page, p, overlay).value;
    OnlyTargetTypesHit(prev[k], p, overlay);
  }

  /** Every note in the list survives a dab, and so does every annotation of another page. */
  lemma EraseKeepsNotesAndOtherPages(prev: seq<Annotation>, page: int, p: Point, overlay: Option<Dimensions>, j: int)
    requires 0 <= j < |prev| && (prev[j].kind == "comment" || prev[j].pageNumber != page)
    ensures prev[j] in Erased(prev, page, p, overlay)
  {
    match FirstHit(prev, page, p, overlay)
    case None =>
    case Some(k) =>
      var next := prev[..k] + prev[k + 1..];
      OnlyTargetTypesHit(prev[k], p, overlay);
      if j < k {
        assert next[j] == prev[j];
      } else {
        assert j != k;
        assert next[j - 1] == prev[j];
      }
  }

  function PageKey(a: Annotation): real { a.pageNumber as real }

  /** The dab keeps the remaining annotations in their order, so a list sorted by page stays sorted. */
  lemma EraseKeepsPageOrder(prev: seq<Annotation>, page: int, p: Point, overlay: Option<Dimensions>)
    requires SortedBy(prev, PageKey)
    ensures SortedBy(Erased(prev, page, p, overlay), PageKey)
  {
    match FirstHit(prev, page, p, overlay)
    case None =>
    case Some(k) =>
      var next := prev[..k] + prev[k + 1..];
      forall i, j | 0 <= i < j < |next|
        ensures PageKey(next[i]) <= PageKey(next[j])
      {
        var i' := if i < k then i else i + 1;
        var j' := if j < k then j else j + 1;
        assert next[i] == prev[i'] && next[j] == prev[j'];
      }
  }
}
