/**
 * The clippings list and its workspace cards: selecting, reordering,
 * combining several clippings into one, splitting a combined clipping back
 * into its parts, and removing a clipping together with its cards.
 */
module ClippingOps {
  import opened Wrappers
  import opened JsText
  import opened WorkspaceTypes
  import opened WorkspaceUtils
  import opened WorkspaceCards

  /** The clippings, the workspace cards and the selected clipping ids, updated together. */
  datatype ClipState = ClipState(clippings: seq<Clipping>, items: seq<WorkspaceItem>, selection: seq<string>)

  predicate UniqueIds(clips: seq<Clipping>)
  {
    forall i, j :: 0 <= i < j < |clips| ==> clips[i].id != clips[j].id
  }

  predicate IdIn(clips: seq<Clipping>, id: string) { exists c :: c in clips && c.id == id }

  // ---------------------------------------------------------------- selection

  /** The list without `id`. */
  function Without(s: seq<string>, id: string): (r: seq<string>)
    ensures forall x :: x in r <==> x in s && x != id
    ensures |r| <= |s|
  {
    if |s| == 0 then []
    else
      assert forall x :: x in s <==> x == s[0] || x in s[1..];
      (if s[0] != id then [s[0]] else []) + Without(s[1..], id)
  }

  /** `toggleClippingSelection`: drop `id` when selected, append it otherwise. */
  function ToggleSelection(selection: seq<string>, id: string): seq<string>
  {
    if id in selection then Without(selection, id) else selection + [id]
  }

  /** Toggling flips exactly the membership of `id`; toggling an unselected id twice restores the selection. */
  lemma ToggleFlipsMembership(selection: seq<string>, id: string)
    ensures id in ToggleSelection(selection, id) <==> id !in selection
    ensures forall x :: x != id ==> (x in ToggleSelection(selection, id) <==> x in selection)
    ensures id !in selection ==> ToggleSelection(ToggleSelection(selection, id), id) == selection
  {
    if id !in selection {
      WithoutAbsent(selection, id);
      WithoutAppended(selection, id);
    }
  }

  lemma {:induction false} WithoutAbsent(s: seq<string>, id: string)
    requires id !in s
    ensures Without(s, id) == s
  {
    if |s| > 0 {
      WithoutAbsent(s[1..], id);
      assert [s[0]] + s[1..] == s;
    }
  }

  lemma {:induction false} WithoutAppended(s: seq<string>, id: string)
    ensures Without(s + [id], id) == Without(s, id)
  {
    if |s| == 0 {
      assert Without([id], id) == [] + Without([], id);
    } else {
      assert (s + [id])[0] == s[0] && (s + [id])[1..] == s[1..] + [id];
      WithoutAppended(s[1..], id);
    }
  }

  // ---------------------------------------------------------------- reorder

  /** `findIndex` of the first clipping with this id at or after `from`. */
  function FindFrom(clips: seq<Clipping>, id: string, from: nat): (r: Option<nat>)
    requires from <= |clips|
    ensures r.Some? ==> from <= r.value < |clips| && clips[r.value].id == id
    ensures r.Some? ==> forall j :: from <= j < r.value ==> clips[j].id != id
    ensures r.None? ==> forall j :: from <= j < |clips| ==> clips[j].id != id
    decreases |clips| - from
  {
    if from == |clips| then None
    else if clips[from].id == id then Some(from)
    else FindFrom(clips, id, from + 1)
  }

  function Find(clips: seq<Clipping>, id: string): Option<nat> { FindFrom(clips, id, 0) }

  function ClampInt(v: int, lo: int, hi: int): (r: int)
    requires lo <= hi
    ensures lo <= r <= hi
    ensures lo <= v <= hi ==> r == v
  {
    if v < lo then lo else if v > hi then hi else v
  }

  /** The list after moving clipping `id` by `dir`: it trades places with the clipping at the clamped target index. */
  function Reordered(clips: seq<Clipping>, id: string, dir: int): seq<Clipping>
  {
    match Find(clips, id)
    case None => clips
    case Some(i) =>
      var j := ClampInt(i + dir, 0, |clips| - 1);
      clips[i := clips[j]][j := clips[i]]
  }

  /** `handleReorderClipping`: copy the list and swap two entries of the copy. */
  method ReorderClipping(prev: seq<Clipping>, id: string, dir: int) returns (next: seq<Clipping>)
    ensures next == Reordered(prev, id, dir)
  {
    var found := Find(prev, id);
    if found.None? {
      return prev;
    }
    var i := found.value;
    var swap := ClampInt(i + dir, 0, |prev| - 1);
    var copy := new Clipping[|prev|](k requires 0 <= k < |prev| => prev[k]);
    assert copy[..] == prev;
    var t := copy[i];
    copy[i] := copy[swap];
    copy[swap] := t;
    next := copy[..];
  }

  /** Reordering only permutes the list; an unknown id leaves it unchanged. */
  lemma ReorderPermutes(clips: seq<Clipping>, id: string, dir: int)
    ensures multiset(Reordered(clips, id, dir)) == multiset(clips)
    ensures !IdIn(clips, id) ==> Reordered(clips, id, dir) == clips
  {
    match Find(clips, id)
    case None =>
    case Some(i) =>
      var j := ClampInt(i + dir, 0, |clips| - 1);
      SwapPermutes(clips, i, j);
  }

  lemma SwapPermutes<T>(s: seq<T>, i: int, j: int)
    requires 0 <= i < |s| && 0 <= j < |s|
    ensures multiset(s[i := s[j]][j := s[i]]) == multiset(s)
  {
    if i != j {
      var t := s[i := s[j]];
      assert multiset(t) == multiset(s) - multiset{s[i]} + multiset{s[j]};
      assert multiset(t[j := s[i]]) == multiset(t) - multiset{t[j]} + multiset{s[i]};
    }
  }

  /** The clipping moves to the clamped target index and the one there takes its place; nothing else moves. */
  lemma ReorderMovesOne(clips: seq<Clipping>, id: string, dir: int, i: nat)
    requires i < |clips| && clips[i].id == id && forall k :: 0 <= k < i ==> clips[k].id != id
    ensures var j := ClampInt(i + dir, 0, |clips| - 1);
            var r := Reordered(clips, id, dir);
            |r| == |clips| && r[j] == clips[i] && r[i] == clips[j] &&
            forall k :: 0 <= k < |clips| && k != i && k != j ==> r[k] == clips[k]
  {
    FindIs(clips, id, i);
  }

  lemma FindIs(clips: seq<Clipping>, id: string, i: nat)
    requires i < |clips| && clips[i].id == id && forall k :: 0 <= k < i ==> clips[k].id != id
    ensures Find(clips, id) == Some(i)
  {
  }

  /** With distinct ids, a move that stays inside the list is undone by the opposite move. */
  lemma ReorderUndo(clips: seq<Clipping>, id: string, dir: int, i: nat)
    requires UniqueIds(clips) && i < |clips| && clips[i].id == id
    requires 0 <= i + dir < |clips|
    ensures Reordered(Reordered(clips, id, dir), id, -dir) == clips
  {
    FindIs(clips, id, i);
    var j := i + dir;
    var r := Reordered(clips, id, dir);
    assert r == clips[i := clips[j]][j := clips[i]];
    forall k | 0 <= k < j
      ensures r[k].id != id
    {
      if k == i {
        assert r[k] == clips[j];
      } else {
        assert r[k] == clips[k];
      }
    }
    FindIs(r, id, j);
    assert ClampInt(j - dir, 0, |r| - 1) == i;
    assert r[j := r[i]][i := r[j]] == clips;
  }

  // ---------------------------------------------------------------- combine

  /** The clippings whose id is selected, in list order. */
  function Selected(clips: seq<Clipping>, selection: seq<string>): (r: seq<Clipping>)
    ensures |r| <= |clips|
    ensures forall c :: c in r <==> c in clips && c.id in selection
  {
    if |clips| == 0 then []
    else
      assert forall x :: x in clips <==> x == clips[0] || x in clips[1..];
      (if clips[0].id in selection then [clips[0]] else []) + Selected(clips[1..], selection)
  }

  /** The clippings whose id is not selected, in list order. */
  function Unselected(clips: seq<Clipping>, selection: seq<string>): (r: seq<Clipping>)
    ensures forall c :: c in r <==> c in clips && c.id !in selection
  {
    if |clips| == 0 then []
    else
      assert forall x :: x in clips <==> x == clips[0] || x in clips[1..];
      (if clips[0].id !in selection then [clips[0]] else []) + Unselected(clips[1..], selection)
  }

  function SegmentLabel(i: nat): string { "Segment " + NatToString(i + 1) }

  /** One segment per selected clipping, labelled `Segment 1`, `Segment 2`, … in list order. */
  function SegmentsOf(selected: seq<Clipping>): (segs: seq<Segment>)
    ensures |segs| == |selected|
  {
    seq(|selected|, i requires 0 <= i < |selected| =>
      Segment(selected[i].id, SegmentLabel(i), selected[i].content, selected[i].sourcePage, selected[i].sourceRect))
  }

  function SegmentLines(segs: seq<Segment>): (r: seq<string>)
    ensures |r| == |segs|
  {
    seq(|segs|, i requires 0 <= i < |segs| => segs[i].labelText + ": " + segs[i].content)
  }

  function SegmentPages(segs: seq<Segment>): (r: seq<string>)
    ensures |r| == |segs|
  {
    seq(|segs|, i requires 0 <= i < |segs| => segs[i].sourcePage)
  }

  /** The combined clipping: labelled contents one per line, the pages joined by ", ", the first part's area. */
  function CombinedClip(id: string, segs: seq<Segment>): Clipping
  {
    Clipping(id, Join(SegmentLines(segs), "\n"), Join(SegmentPages(segs), ", "),
             if |segs| > 0 then segs[0].sourceRect else None, "", "combined", Some(segs))
  }

  /** The clippings list after combining (the updater): unchanged unless two or more selected clippings exist. */
  function CombineClippings(clips: seq<Clipping>, selection: seq<string>, newId: string): seq<Clipping>
  {
    var selected := Selected(clips, selection);
    if |selected| < 2 then clips
    else [CombinedClip(newId, SegmentsOf(selected))] + Unselected(clips, selection)
  }

  /** A clip card whose clipping is among the selected ids. */
  predicate IsSelectedClipCard(it: WorkspaceItem, selection: seq<string>)
  {
    ItemType(it) == "clip" && ItemSourceId(it) in selection
  }

  /** The cards left after dropping the selected clippings' cards. */
  function KeepUnselectedCards(items: seq<WorkspaceItem>, selection: seq<string>): (r: seq<WorkspaceItem>)
    ensures forall it :: it in r <==> it in items && !IsSelectedClipCard(it, selection)
  {
    if |items| == 0 then []
    else
      assert forall x :: x in items <==> x == items[0] || x in items[1..];
      (if !IsSelectedClipCard(items[0], selection) then [items[0]] else []) + KeepUnselectedCards(items[1..], selection)
  }

  /**
   * The cards after combining: the selected clippings' cards are dropped, and
   * when a combined clipping `combinedId` was made and one of them had been on
   * the workspace, one card for it goes in front.
   */
  function CombineCards(items: seq<WorkspaceItem>, selection: seq<string>, combinedId: Option<string>,
                        itemId: string, jitter: real): seq<WorkspaceItem>
  {
    var filtered := KeepUnselectedCards(items, selection);
    var hadOriginals := exists it :: it in items && IsSelectedClipCard(it, selection);
    if combinedId.Some? && hadOriginals then
      var count := |CardsOfType(filtered, "clip")|;
      [WorkspaceItem(itemId, "clip", combinedId.value, "", ClipStackX(count, jitter), 0.5)] + filtered
    else filtered
  }

  /**
   * `handleCombineClippings` as written: once two or more ids are selected the
   * selected cards are dropped and the selection is cleared, even when fewer
   * than two of those ids still name a clipping and no combined clipping is made.
   */
  function CombineAsWritten(st: ClipState, newId: string, itemId: string, jitter: real): ClipState
  {
    if |st.selection| < 2 then st
    else
      var made := |Selected(st.clippings, st.selection)| >= 2;
      ClipState(CombineClippings(st.clippings, st.selection, newId),
                CombineCards(st.items, st.selection, if made then Some(newId) else None, itemId, jitter),
                [])
  }

  /**
   * Combining with the cards touched only when the combined clipping is made:
   * with fewer than two selected clippings the clippings and cards stay as
   * they are and only the selection is cleared.
   */
  function Combine(st: ClipState, newId: string, itemId: string, jitter: real): ClipState
  {
    if |st.selection| < 2 then st
    else if |Selected(st.clippings, st.selection)| < 2 then st.(selection := [])
    else
      ClipState(CombineClippings(st.clippings, st.selection, newId),
                CombineCards(st.items, st.selection, Some(newId), itemId, jitter),
                [])
  }

  /**
   * A stale id in the selection (one that names no clipping, as an uncombined
   * clipping's id stays selected) lets the as-written combine remove the card
   * of a clipping that is neither combined nor removed.
   */
  lemma StaleSelectionDropsCardAsWritten(a: Clipping, card: WorkspaceItem, stale: string, newId: string, itemId: string, jitter: real)
    requires stale != a.id && a.id != "" && card.itemType == "clip" && card.sourceId == a.id
    ensures var st := ClipState([a], [card], [stale, a.id]);
            var r := CombineAsWritten(st, newId, itemId, jitter);
            r.clippings == [a] && HasClipCard(st.items, a.id) && !HasClipCard(r.items, a.id)
  {
    var st := ClipState([a], [card], [stale, a.id]);
    assert Selected([a], st.selection) == [a] by {
      assert Selected([a], st.selection) == [a] + Selected([], st.selection);
    }
    assert IsClipCardOf(card, a.id);
    var r := CombineAsWritten(st, newId, itemId, jitter);
    assert KeepUnselectedCards([card], st.selection) == [] + KeepUnselectedCards([], st.selection);
    assert r.items == [];
  }

  /** Combining never takes away the card of a clipping that is still in the list afterwards. */
  lemma CombineKeepsSurvivorsCards(st: ClipState, newId: string, itemId: string, jitter: real, id: string)
    requires IdIn(st.clippings, id) && HasClipCard(st.items, id)
    requires IdIn(Combine(st, newId, itemId, jitter).clippings, id)
    requires !IdIn(st.clippings, newId)
    ensures HasClipCard(Combine(st, newId, itemId, jitter).items, id)
  {
    if |st.selection| >= 2 && |Selected(st.clippings, st.selection)| >= 2 {
      var r := Combine(st, newId, itemId, jitter);
      var c :| c in r.clippings && c.id == id;
      assert id != newId;
      assert c in Unselected(st.clippings, st.selection);
      var it :| it in st.items && IsClipCardOf(it, id);
      assert it in KeepUnselectedCards(st.items, st.selection);
    }
  }

  /**
   * Combining two or more selected clippings: one `combined` clipping in front
   * whose segments are the selected clippings in list order (`Segment 1`, …),
   * followed by the unselected ones; the selection is cleared.
   */
  lemma CombineShape(st: ClipState, newId: string, itemId: string, jitter: real)
    requires |st.selection| >= 2 && |Selected(st.clippings, st.selection)| >= 2
    ensures var r := Combine(st, newId, itemId, jitter);
            var sel := Selected(st.clippings, st.selection);
            r.selection == [] && |r.clippings| >= 1 &&
            r.clippings[0].id == newId && r.clippings[0].kind == "combined" &&
            r.clippings[0].segments == Some(SegmentsOf(sel)) &&
            r.clippings[1..] == Unselected(st.clippings, st.selection) &&
            (forall i :: 0 <= i < |sel| ==>
               var s := r.clippings[0].segments.value[i];
               s.id == sel[i].id && s.labelText == SegmentLabel(i) && s.content == sel[i].content &&
               s.sourcePage == sel[i].sourcePage && s.sourceRect == sel[i].sourceRect)
  {
  }

  // ---------------------------------------------------------------- uncombine

  /** A segment restored as a plain clipping. */
  function RestoredClip(seg: Segment): Clipping
  {
    Clipping(seg.id, seg.content, seg.sourcePage, seg.sourceRect, "", "", None)
  }

  function Restored(segs: seq<Segment>): (r: seq<Clipping>)
    ensures |r| == |segs|
  {
    seq(|segs|, i requires 0 <= i < |segs| => RestoredClip(segs[i]))
  }

  /** The first combined clipping with this id. */
  function FindCombined(clips: seq<Clipping>, id: string): (r: Option<Clipping>)
    ensures r.Some? ==> r.value in clips && r.value.id == id && r.value.kind == "combined"
    ensures r.None? ==> forall c :: c in clips ==> !(c.id == id && c.kind == "combined")
  {
    if |clips| == 0 then None
    else if clips[0].id == id && clips[0].kind == "combined" then Some(clips[0])
    else
      assert forall x :: x in clips <==> x == clips[0] || x in clips[1..];
      FindCombined(clips[1..], id)
  }

  /** The cards other than those of clip `id`. */
  function WithoutClipCards(items: seq<WorkspaceItem>, id: string): (r: seq<WorkspaceItem>)
    ensures forall it :: it in r <==> it in items && !IsClipCardOf(it, id)
  {
    if |items| == 0 then []
    else
      assert forall x :: x in items <==> x == items[0] || x in items[1..];
      (if !IsClipCardOf(items[0], id) then [items[0]] else []) + WithoutClipCards(items[1..], id)
  }

  /** One clip card per restored segment, continuing the cascade of the remaining clip cards. */
  function SegmentCards(segs: seq<Segment>, baseCount: nat, itemIds: nat -> string, jitters: nat -> real): (r: seq<WorkspaceItem>)
    ensures |r| == |segs|
    ensures forall i :: 0 <= i < |segs| ==> IsClipCardOf(r[i], segs[i].id) && r[i].y == 0.5
  {
    seq(|segs|, i requires 0 <= i < |segs| =>
      WorkspaceItem(itemIds(i), "clip", segs[i].id, "", ClipStackX(baseCount + i, jitters(i)), 0.5))
  }

  /**
   * `handleUncombineClipping`: nothing unless `id` names a combined clipping
   * with a segment list; otherwise its segments come back in front as plain
   * clippings, the combined clipping goes, and its card is replaced by one
   * card per segment when it had one. The selection is left as it is.
   */
  function Uncombine(st: ClipState, id: string, itemIds: nat -> string, jitters: nat -> real): ClipState
  {
    match FindCombined(st.clippings, id)
    case None => st
    case Some(combined) =>
      if combined.segments.None? then st
      else
        var segs := combined.segments.value;
        var filtered := WithoutClipCards(st.items, id);
        var hadCard := exists it :: it in st.items && IsClipCardOf(it, id);
        var items :=
          if !hadCard || |segs| == 0 then filtered
          else SegmentCards(segs, |CardsOfType(filtered, "clip")|, itemIds, jitters) + filtered;
        ClipState(Restored(segs) + WithoutId(st.clippings, ClipId, id), items, st.selection)
  }

  /** The clipping a segment restores to: the same id, content, pages and area, as a plain clipping. */
  function Plain(c: Clipping): Clipping { c.(source := "", kind := "", segments := None) }

  function PlainAll(clips: seq<Clipping>): (r: seq<Clipping>)
    ensures |r| == |clips|
  {
    seq(|clips|, i requires 0 <= i < |clips| => Plain(clips[i]))
  }

  /**
   * Splitting a freshly combined clipping restores the selected clippings in
   * their order, each with its id, content, pages and area (as plain
   * clippings), in front of the clippings that were not selected.
   */
  lemma UncombineRestoresCombined(st: ClipState, newId: string, itemId: string, jitter: real,
                                  itemIds: nat -> string, jitters: nat -> real)
    requires |st.selection| >= 2 && |Selected(st.clippings, st.selection)| >= 2
    requires !IdIn(st.clippings, newId)
    ensures var combined := Combine(st, newId, itemId, jitter);
            Uncombine(combined, newId, itemIds, jitters).clippings ==
              PlainAll(Selected(st.clippings, st.selection)) + Unselected(st.clippings, st.selection)
  {
    var sel := Selected(st.clippings, st.selection);
    var rest := Unselected(st.clippings, st.selection);
    var cc := CombinedClip(newId, SegmentsOf(sel));
    CombineShape(st, newId, itemId, jitter);
    var combined := Combine(st, newId, itemId, jitter);
    assert combined.clippings == [cc] + rest;
    assert !IdIn(rest, newId);
    UncombineFront(cc, rest, combined.items, combined.selection, itemIds, jitters);
    assert Restored(SegmentsOf(sel)) == PlainAll(sel);
  }

  /** Splitting the clipping at the front of the list restores its segments in front of the rest. */
  lemma UncombineFront(cc: Clipping, rest: seq<Clipping>, items: seq<WorkspaceItem>, selection: seq<string>,
                       itemIds: nat -> string, jitters: nat -> real)
    requires cc.kind == "combined" && cc.segments.Some? && !IdIn(rest, cc.id)
    ensures var st := ClipState([cc] + rest, items, selection);
            Uncombine(st, cc.id, itemIds, jitters).clippings == Restored(cc.segments.value) + rest
  {
    var clips := [cc] + rest;
    assert clips[0] == cc && clips[1..] == rest;
    assert FindCombined(clips, cc.id) == Some(cc);
    WithoutFreshClip(rest, cc.id);
    assert WithoutId(clips, ClipId, cc.id) == rest;
  }

  lemma {:induction false} WithoutFreshClip(clips: seq<Clipping>, id: string)
    requires !IdIn(clips, id)
    ensures WithoutId(clips, ClipId, id) == clips
  {
    if |clips| > 0 {
      assert clips[0] in clips;
      assert forall c :: c in clips[1..] ==> c in clips;
      WithoutFreshClip(clips[1..], id);
      assert [clips[0]] + clips[1..] == clips;
    }
  }

  /** After splitting, the combined clipping is gone and every segment is a clipping again. */
  lemma UncombineRemovesCombined(st: ClipState, id: string, itemIds: nat -> string, jitters: nat -> real)
    requires FindCombined(st.clippings, id).Some? && FindCombined(st.clippings, id).value.segments.Some?
    ensures var segs := FindCombined(st.clippings, id).value.segments.value;
            var r := Uncombine(st, id, itemIds, jitters);
            (forall i :: 0 <= i < |segs| ==> r.clippings[i] == RestoredClip(segs[i])) &&
            (forall c :: c in r.clippings[|segs|..] ==> c.id != id) &&
            ((forall i :: 0 <= i < |segs| ==> segs[i].id != id) ==> !HasClipCard(r.items, id))
  {
    var segs := FindCombined(st.clippings, id).value.segments.value;
    var r := Uncombine(st, id, itemIds, jitters);
    assert r.clippings[|segs|..] == WithoutId(st.clippings, ClipId, id);
    if forall i :: 0 <= i < |segs| ==> segs[i].id != id {
      var filtered := WithoutClipCards(st.items, id);
      forall it | it in r.items
        ensures !IsClipCardOf(it, id)
      {
        if it !in filtered {
          var k :| 0 <= k < |segs| && r.items[k] == it;
        }
      }
    }
  }

  // ---------------------------------------------------------------- remove

  /** `handleRemoveClipping`: the clipping, its clip cards and its selection entry go. */
  function RemoveClipping(st: ClipState, id: string): ClipState
  {
    ClipState(WithoutId(st.clippings, ClipId, id), WithoutClipCards(st.items, id), Without(st.selection, id))
  }

  /**
   * After removal no clipping, clip card or selection entry refers to `id`,
   * and every other clipping, card (note cards included) and selected id is kept.
   */
  lemma RemoveClippingCascades(st: ClipState, id: string)
    ensures var r := RemoveClipping(st, id);
            !IdIn(r.clippings, id) && !HasClipCard(r.items, id) && id !in r.selection &&
            (forall c :: c in st.clippings && c.id != id ==> c in r.clippings) &&
            (forall it :: it in st.items && !IsClipCardOf(it, id) ==> it in r.items) &&
            (forall x :: x in st.selection && x != id ==> x in r.selection)
  {
  }

  /** After a removal the sweep finds nothing more to drop when every card resolved before. */
  lemma RemoveThenSweep(st: ClipState, id: string)
    requires forall i :: 0 <= i < |st.items| ==> Resolves(st.items[i], st.clippings)
    requires forall i :: 0 <= i < |st.items| ==> ItemType(st.items[i]) == "clip" || ItemType(st.items[i]) == "comment"
    ensures var r := RemoveClipping(st, id);
            SweepCards(r.items, r.clippings) == r.items
  {
    var r := RemoveClipping(st, id);
    forall i | 0 <= i < |r.items|
      ensures Resolves(r.items[i], r.clippings)
    {
      var it := r.items[i];
      assert it in r.items;
      assert it in st.items;
      if ItemType(it) != "comment" {
        var k :| 0 <= k < |st.items| && st.items[k] == it;
        var c :| c in st.clippings && c.id == ItemSourceId(it);
        assert c.id != id;
        assert c in r.clippings;
      }
    }
    SweepOfResolved(r.items, r.clippings);
  }
}
