/**
 * The cards of the workspace canvas: where a new clip card or note card is
 * placed, the sweep that drops cards whose clipping is gone, and the removal
 * of a note together with its card.
 */
module WorkspaceCards {
  import opened Wrappers
  import opened JsText
  import opened WorkspaceTypes
  import opened WorkspaceUtils

  /** JavaScript `a % m` for `a >= 0` and `m > 0`. */
  function RealMod(a: real, m: real): (r: real)
    requires a >= 0.0 && m > 0.0
    ensures 0.0 <= r < m
    ensures a < m ==> r == a
  {
    var q := (a / m).Floor;
    assert q as real <= a / m < q as real + 1.0;
    MulBounds(a, m, q);
    FloorOfSmall(a, m, q);
    a - m * (q as real)
  }

  lemma MulBounds(a: real, m: real, q: int)
    requires m > 0.0 && q as real <= a / m < q as real + 1.0
    ensures m * (q as real) <= a < m * (q as real) + m
  {
    var d := a / m;
    assert a == m * d;
    MulMono(m, q as real, d);
    var q1 := (q as real) + 1.0;
    assert d < q1;
    MulMono(m, d, q1);
    assert m * d < m * q1;
    assert m * q1 == m * (q as real) + m;
    assert a < m * q1;
    assert a < m * (q as real) + m;
  }

  lemma FloorOfSmall(a: real, m: real, q: int)
    requires a >= 0.0 && m > 0.0 && m * (q as real) <= a < m * (q as real) + m
    ensures a < m ==> q == 0
  {
    if a < m {
      if q >= 1 {
        MulMono(m, 1.0, q as real);
      } else if q <= -1 {
        MulMono(m, q as real, -1.0);
      }
    }
  }

  lemma MulMono(m: real, x: real, y: real)
    requires m > 0.0 && x <= y
    ensures m * x <= m * y && (x < y ==> m * x < m * y)
  {
    assert m * y - m * x == m * (y - x);
  }

  /** Random jitter: `Math.random() * 0.01`. */
  predicate Jitter(j: real) { 0.0 <= j < 0.01 }

  /** The cards of one type. */
  function CardsOfType(items: seq<WorkspaceItem>, t: string): (r: seq<WorkspaceItem>)
    ensures |r| <= |items|
    ensures forall x :: x in r <==> x in items && ItemType(x) == t
  {
    if |items| == 0 then []
    else
      var rest := CardsOfType(items[1..], t);
      assert forall x :: x in items <==> x == items[0] || x in items[1..];
      if ItemType(items[0]) == t then [items[0]] + rest else rest
  }

  /** A card for a clip whose source is `id`. */
  predicate IsClipCardOf(it: WorkspaceItem, id: string) { ItemType(it) == "clip" && ItemSourceId(it) == id }

  predicate HasClipCard(items: seq<WorkspaceItem>, id: string) { exists it :: it in items && IsClipCardOf(it, id) }

  /** The left offset of a new clip card: four cascading columns from 0.08, clamped to [0.02, 0.22]. */
  function ClipStackX(clipCount: nat, jitter: real): (x: real)
    ensures 0.02 <= x <= 0.22
  {
    Clamp(WORKSPACE_LEFT_STACK_X + (clipCount % 4) as real * (WORKSPACE_LEFT_STACK_SPREAD / 2.0) + jitter, 0.02, 0.22)
  }

  /** The clamp never bites: with the jitter in [0, 0.01) a clip card sits at `0.08 + 0.02·(count mod 4) + jitter`, left of 0.16. */
  lemma ClipStackXUnclamped(clipCount: nat, jitter: real)
    requires Jitter(jitter)
    ensures ClipStackX(clipCount, jitter) == 0.08 + (clipCount % 4) as real * 0.02 + jitter
    ensures 0.08 <= ClipStackX(clipCount, jitter) < 0.16
  {
  }

  /** The height of a new clip card: the preferred one clamped to [0.05, 0.95], else a cascade from 0.2 in steps of 0.18, wrapping after 0.6. */
  function ClipCardY(preferredY: Option<real>, clipCount: nat): (y: real)
    ensures 0.05 <= y <= 0.95
    ensures preferredY.None? ==> 0.2 <= y < 0.8
  {
    if preferredY.Some? then Clamp(preferredY.value, 0.05, 0.95)
    else Clamp(0.2 + RealMod(clipCount as real * 0.18, 0.6), 0.08, 0.92)
  }

  /**
   * `addClipToWorkspace`: put a new card for clip `clipId` in front of the
   * others; nothing for an empty id.
   */
  function AddClipCard(items: seq<WorkspaceItem>, clipId: string, itemId: string,
                       preferredY: Option<real>, jitter: real): (r: seq<WorkspaceItem>)
    ensures clipId == "" ==> r == items
    ensures clipId != "" ==> |r| == |items| + 1 && r[1..] == items && IsClipCardOf(r[0], clipId) && r[0].id == itemId
    ensures clipId != "" ==> 0.02 <= r[0].x <= 0.22 && 0.05 <= r[0].y <= 0.95
  {
    if clipId == "" then items
    else
      var count := |CardsOfType(items, "clip")|;
      [WorkspaceItem(itemId, "clip", clipId, "", ClipStackX(count, jitter), ClipCardY(preferredY, count))] + items
  }

  /** The preferred height for a clip cut from page `page` of `numPages` (`None` when the page count is unknown). */
  function PageShareY(page: int, numPages: nat): (y: Option<real>)
    ensures y.Some? <==> numPages != 0
    ensures y.Some? ==> 0.08 <= y.value <= 0.9
  {
    if numPages == 0 then None else Some(Clamp(page as real / numPages as real, 0.08, 0.9))
  }

  /** The sweep run whenever the clippings change: note cards stay, other cards stay only while their clipping exists. */
  function SweepCards(items: seq<WorkspaceItem>, clippings: seq<Clipping>): (r: seq<WorkspaceItem>)
  {
    if |items| == 0 then []
    else
      var it := items[0];
      var keep := ItemType(it) == "comment" || exists c :: c in clippings && c.id == ItemSourceId(it);
      (if keep then [it] else []) + SweepCards(items[1..], clippings)
  }

  predicate Resolves(it: WorkspaceItem, clippings: seq<Clipping>)
  {
    ItemType(it) == "comment" || exists c :: c in clippings && c.id == ItemSourceId(it)
  }

  /**
   * The sweep keeps exactly the note cards and the cards whose clipping exists,
   * in their order: it is the filter of the list by that test.
   */
  lemma {:induction false} SweepKeepsExactly(items: seq<WorkspaceItem>, clippings: seq<Clipping>)
    ensures forall it :: it in SweepCards(items, clippings) <==> it in items && Resolves(it, clippings)
    ensures |SweepCards(items, clippings)| <= |items|
  {
    if |items| > 0 {
      SweepKeepsExactly(items[1..], clippings);
      assert forall x :: x in items <==> x == items[0] || x in items[1..];
    }
  }

  /** Sweeping twice is sweeping once. */
  lemma {:induction false} SweepIdempotent(items: seq<WorkspaceItem>, clippings: seq<Clipping>)
    ensures SweepCards(SweepCards(items, clippings), clippings) == SweepCards(items, clippings)
  {
    if |items| > 0 {
      SweepIdempotent(items[1..], clippings);
      var it := items[0];
      var rest := SweepCards(items[1..], clippings);
      if Resolves(it, clippings) {
        assert SweepCards(items, clippings) == [it] + rest;
        assert ([it] + rest)[0] == it && ([it] + rest)[1..] == rest;
      } else {
        assert SweepCards(items, clippings) == rest;
      }
    }
  }

  /** A list whose cards all resolve is left unchanged by the sweep. */
  lemma {:induction false} SweepOfResolved(items: seq<WorkspaceItem>, clippings: seq<Clipping>)
    requires forall i :: 0 <= i < |items| ==> Resolves(items[i], clippings)
    ensures SweepCards(items, clippings) == items
  {
    if |items| > 0 {
      SweepOfResolved(items[1..], clippings);
      assert [items[0]] + items[1..] == items;
    }
  }

  // ---------------------------------------------------------------- notes

  /** The note text of a prompt answer: trimmed, `None` when cancelled or blank. */
  function NoteBody(answer: Option<string>): (b: Option<string>)
    ensures b.None? <==> answer.None? || AllSpace(answer.value)
    ensures b.Some? ==> b.value == Trim(answer.value) && b.value != ""
  {
    if answer.Some? && Trim(answer.value) != "" then Some(Trim(answer.value)) else None
  }

  /** The left offset of a new note card: three cascading columns from 0.08, clamped to [0.02, 0.2]. */
  function NoteStackX(noteCount: nat, jitter: real): (x: real)
    ensures 0.02 <= x <= 0.2
  {
    Clamp(WORKSPACE_LEFT_STACK_X + (noteCount % 3) as real * (WORKSPACE_LEFT_STACK_SPREAD / 2.0) + jitter, 0.02, 0.2)
  }

  /** The height of a new note card: a cascade from 0.18 in steps of 0.14, wrapping after 0.6, clamped to [0.05, 0.92]. */
  function NoteCardY(noteCount: nat): (y: real)
    ensures 0.18 <= y < 0.78
  {
    Clamp(0.18 + RealMod(noteCount as real * 0.14, 0.6), 0.05, 0.92)
  }

  /** The card for a new note, put in front of the others. */
  function AddNoteCard(items: seq<WorkspaceItem>, noteId: string, itemId: string, jitter: real): (r: seq<WorkspaceItem>)
    ensures |r| == |items| + 1 && r[1..] == items
    ensures ItemType(r[0]) == "comment" && ItemSourceId(r[0]) == noteId && r[0].id == itemId
  {
    var count := |CardsOfType(items, "comment")|;
    [WorkspaceItem(itemId, "comment", noteId, "", NoteStackX(count, jitter), NoteCardY(count))] + items
  }

  /** The page note linked to a workspace note: at the centre of the source area, clamped to [0.05, 0.95], with no size. */
  function LinkedPageNote(id: string, page: int, color: string, content: string, quoteText: string, r: Rect): (a: Annotation)
    ensures a.kind == "comment" && a.pageNumber == page && a.content == content
    ensures a.position.Some? && a.position.value.width.None? && a.position.value.height.None?
    ensures 0.05 <= a.position.value.x <= 0.95 && 0.05 <= a.position.value.y <= 0.95
    ensures 0.05 <= r.x + r.width / 2.0 <= 0.95 ==> a.position.value.x == r.x + r.width / 2.0
    ensures a.linkedText.None? <==> quoteText == ""
  {
    Annotation(id, "comment", page, color, "",
               Some(Box(Clamp(r.x + r.width / 2.0, 0.05, 0.95), Clamp(r.y + r.height / 2.0, 0.05, 0.95), None, None)),
               None, [], [], 0.0, 0.0, "", false, 0.0, 0.0, content, if quoteText != "" then Some(quoteText) else None, false)
  }

  /** `handleDeleteWorkspaceComment`, on the cards: the note's cards go, every other card stays. */
  function RemoveNoteCards(items: seq<WorkspaceItem>, id: string): (r: seq<WorkspaceItem>)
    ensures forall it :: it in r <==> it in items && !(ItemType(it) == "comment" && ItemSourceId(it) == id)
  {
    if |items| == 0 then []
    else
      assert forall x :: x in items <==> x == items[0] || x in items[1..];
      var keep := !(ItemType(items[0]) == "comment" && ItemSourceId(items[0]) == id);
      (if keep then [items[0]] else []) + RemoveNoteCards(items[1..], id)
  }
}
