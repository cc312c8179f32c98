# A verified model of a PDF annotation workspace

This project models the annotation engine of a React PDF reader in Dafny and proves properties of the model. The reader has two parts:

- **The document workspace.** The user highlights, underlines, strikes out and draws on PDF pages, and erases marks again. They pin comment notes and bookmarks, and cut clippings out of pages. Clippings can be combined and split again. Cards for clippings and notes sit on a workspace board, joined to their pages by connector curves. The text can be searched, and in highlight view the page is cropped to its marked region. Scanned pages get their text from OCR: the pipeline recognises pages, and an invisible layer makes the recognised words selectable and copyable.
- **The legacy flip viewer.** An older component draws rectangles and freehand strokes on page images. It stores them with comments through a wire format and saves only what the backend does not already hold. It has its own zoom and pan state and its own tool switches.

All geometry is in page-normalised coordinates in [0, 1], written as Dafny `real`. The model follows the source file by file:

- **Pure code becomes functions.** Helpers, hit tests, text normalisation, the wire transforms, connector geometry, and the native-text and TSV rules are datatypes and functions, each with lemmas.
- **Stateful code becomes classes.** The workspace controller, the freehand layer, the annotatable page, the OCR job state, the bookmark set, the combine button, the flip viewer's local annotations, zoom and tools are classes. Their handlers are methods with `modifies` frames.
- **Loops become `while` loops.** The source's loops carry invariants and are proved against reference functions: the eraser's copy loop, search and its character index, crop grouping and mask stops, line grouping, copy reconstruction, the save plan, and the id collection.

Modules, one or more per source file:

| module | source |
|---|---|
| `WorkspaceUtils` | `src/pages/documentWorkspace/utils.js` |
| `WorkspaceTypes`, `HitTest`, `WorkspaceErase`, `StableSort`, `DrawingGesture`, `HighlightCrop`, `ClippingText`, `ClippingOps`, `WorkspaceCards`, `WorkspaceSearch`, `Connectors`, `DocumentWorkspace` | `src/pages/documentWorkspace/hooks/useDocumentWorkspaceController.js` |
| `FreehandLayer` | `src/pages/documentWorkspace/components/WorkspaceFreehandLayer.js` |
| `AnnotablePage` | `src/components/pieces/annotablePage/AnnotablePage.js` |
| `AnnotationApi` | `src/utils/connectors/annotationApi.js` |
| `FlipAnnotations` | `src/pages/flipViewPage/hooks/useAnnotations.js` |
| `OcrPipeline` | `src/pages/documentWorkspace/hooks/useOcr.js` |
| `OcrTextLayer` | `src/pages/documentWorkspace/components/OcrTextLayer.js` |
| `Connectors` (paths) | `src/pages/documentWorkspace/components/ConnectorSvg.js` |
| `CombineFab` | `src/pages/documentWorkspace/components/MultiClipCombineFab.js` |
| `FlipZoom` | `src/pages/flipViewPage/hooks/useZoom.js` |
| `DrawingTools` | `src/pages/flipViewPage/hooks/useDrawingTools.js` |
| `PageBookmarks` | `src/pages/documentWorkspace/hooks/useBookmarks.js` |
| `FlipbookUtils` | `src/pages/flipViewPage/utils/flipbookUtils.js` |
| `Wrappers`, `JsText` | shared: `Option`, and JavaScript's string built-ins (`trim`, `split`, `join`, `parseInt`, number printing, `toLowerCase` on the Latin, Greek and Cyrillic capitals) |

## Model

| member | source | states |
|---|---|---|
| WorkspaceUtils.Clamp | src/pages/documentWorkspace/utils.js:3 | the result never exceeds `hi`, is at least `lo` when `lo <= hi`, is `v` itself when `v` is inside, `lo` below and `hi` above |
| WorkspaceUtils.CardReadsBack | src/pages/documentWorkspace/utils.js:22-24 | a card always reads back a non-empty type, its own when it has one, and reads as a note only when made as one; it reads back its `sourceId`, else its `clippingId`, and no source exactly when it has neither |
| WorkspaceUtils.IdGenerator.constructor | src/pages/documentWorkspace/utils.js:7-8 | a generator starts with its prefix, counter 0 and nothing issued |
| WorkspaceUtils.IdGenerator.Next | src/pages/documentWorkspace/utils.js:9 | the counter goes up by one before formatting `prefix-now-counter`; the id was never issued before by this generator, and is recorded as issued |
| WorkspaceUtils.TrailingNumberOfFormatId | src/pages/documentWorkspace/utils.js:9 | the counter can be read back from the end of every formatted id, whatever the clock said, which is why ids from different counter values differ |
| WorkspaceUtils.TrailingDigitsAfterDash | src/pages/documentWorkspace/utils.js:9 | the digits after the last dash of an id are exactly the counter's digits |
| WorkspaceUtils.MinOf | src/pages/documentWorkspace/utils.js:30-32 | `Math.min(...xs)`: a lower bound of the list that is one of its elements |
| WorkspaceUtils.MaxOf | src/pages/documentWorkspace/utils.js:31-33 | `Math.max(...xs)`: an upper bound of the list that is one of its elements |
| WorkspaceUtils.AxisSize | src/pages/documentWorkspace/utils.js:34-35 | the extent on one axis is at least 0.005 |
| WorkspaceUtils.BoundingRect | src/pages/documentWorkspace/utils.js:26-37 | no rect exactly for an empty list; otherwise width and height at least 0.005 |
| WorkspaceUtils.BoundingRectCoversPoints | src/pages/documentWorkspace/utils.js:26-37 | for points in the unit square the rect lies in [0,1] on both axes and covers every point |
| WorkspaceUtils.ClampedSpanCovers | src/pages/documentWorkspace/utils.js:34-36 | on one axis, values in [0,1] give a clamped span inside [0,1] that contains them all |
| WorkspaceUtils.ClampedSpan | src/pages/documentWorkspace/utils.js:34-36 | the span of [lo, hi] widened to 0.005 and clamped into [0,1] still contains [lo, hi] |
| WorkspaceUtils.PrimaryPageOfPageList | src/pages/documentWorkspace/utils.js:39-43 | `"3, 5"` gives 3: the number before the first comma; a single page number gives itself |
| WorkspaceUtils.PrimaryPageDefault | src/pages/documentWorkspace/utils.js:39-43 | a source whose first comma-separated entry does not start with an integer gives page 1; otherwise that integer, whatever follows the first comma |
| WorkspaceUtils.FirstPieceIsPrefix | src/pages/documentWorkspace/utils.js:40 | the part before the first comma is a prefix of the source |
| WorkspaceUtils.NormalizedPoint | src/pages/documentWorkspace/utils.js:45-50 | the point can be inverted: `x·width + left = clientX` and `y·height + top = clientY` for a non-zero box |
| WorkspaceUtils.PointerPressure | src/pages/documentWorkspace/utils.js:52-57 | always in [0.25, 1.35]; exactly 1 when disabled or not a number, and for a non-positive reading; the reading itself when in range |
| WorkspaceCards.RealMod | src/pages/documentWorkspace/hooks/useDocumentWorkspaceController.js:1979 | JavaScript `%` on non-negative reals: in [0, m), and `a` itself below `m` |
| WorkspaceCards.CardsOfType | src/pages/documentWorkspace/hooks/useDocumentWorkspaceController.js:1973 | the filter by card type: exactly the cards of that type |
| WorkspaceCards.ClipStackX | src/pages/documentWorkspace/hooks/useDocumentWorkspaceController.js:1974-1978 | a new clip card's left offset lies in [0.02, 0.22] |
| WorkspaceCards.ClipStackXUnclamped | src/pages/documentWorkspace/hooks/useDocumentWorkspaceController.js:1974-1978 | with jitter in [0, 0.01) the clamp never bites: the offset is `0.08 + 0.02·(count mod 4) + jitter`, below 0.16 |
| WorkspaceCards.ClipCardY | src/pages/documentWorkspace/hooks/useDocumentWorkspaceController.js:1979-1981 | a new clip card's height lies in [0.05, 0.95], and in [0.2, 0.8) without a preferred height |
| WorkspaceCards.AddClipCard | src/pages/documentWorkspace/hooks/useDocumentWorkspaceController.js:1969-1991 | nothing for an empty clip id; otherwise one card for that clip in front of the unchanged others, inside the placement bounds |
| WorkspaceCards.PageShareY | src/pages/documentWorkspace/hooks/useDocumentWorkspaceController.js:287 | a preferred height exactly when the page count is known, in [0.08, 0.9] |
| WorkspaceCards.SweepKeepsExactly | src/pages/documentWorkspace/hooks/useDocumentWorkspaceController.js:2043-2051 | the sweep keeps exactly the note cards and the cards whose clipping still exists |
| WorkspaceCards.SweepIdempotent | src/pages/documentWorkspace/hooks/useDocumentWorkspaceController.js:2043-2051 | sweeping twice is sweeping once |
| WorkspaceCards.SweepOfResolved | src/pages/documentWorkspace/hooks/useDocumentWorkspaceController.js:2043-2051 | a list whose cards all resolve is left unchanged |
| WorkspaceCards.NoteBody | src/pages/documentWorkspace/hooks/useDocumentWorkspaceController.js:775-779 | no note exactly when the prompt is cancelled or blank; otherwise the trimmed, non-empty answer |
| WorkspaceCards.NoteStackX | src/pages/documentWorkspace/hooks/useDocumentWorkspaceController.js:795-799 | a new note card's left offset lies in [0.02, 0.2] |
| WorkspaceCards.NoteCardY | src/pages/documentWorkspace/hooks/useDocumentWorkspaceController.js:794-805 | a new note card's height lies in [0.18, 0.78) |
| WorkspaceCards.AddNoteCard | src/pages/documentWorkspace/hooks/useDocumentWorkspaceController.js:792-808 | one `comment` card for the note in front of the unchanged others |
| WorkspaceCards.LinkedPageNote | src/pages/documentWorkspace/hooks/useDocumentWorkspaceController.js:810-828 | a page comment on the same page with the note's text, at the source area's centre clamped to [0.05, 0.95], carrying the quote only when there is one |
| WorkspaceCards.RemoveNoteCards | src/pages/documentWorkspace/hooks/useDocumentWorkspaceController.js:2455-2461 | exactly the note's cards go; every other card stays |
| HitTest.DistanceSqPointToSegment | src/pages/documentWorkspace/hooks/useDocumentWorkspaceController.js:51-67 | infinite exactly when one of the three points is missing |
| HitTest.SegmentDistSq | src/pages/documentWorkspace/hooks/useDocumentWorkspaceController.js:53-66 | never negative; for a segment of length 0 it is the squared distance to its one point |
| HitTest.SegmentDistSqAtEndpoints | src/pages/documentWorkspace/hooks/useDocumentWorkspaceController.js:51-67 | both endpoints of a segment are at distance 0 from it |
| HitTest.NormalizedStrokeThreshold | src/pages/documentWorkspace/hooks/useDocumentWorkspaceController.js:69-76 | never below the eraser padding 0.015; exactly 1.2 times it when the overlay size is missing or zero |
| HitTest.DoesFreehandStrokeHitPoint | src/pages/documentWorkspace/hooks/useDocumentWorkspaceController.js:78-89 | the loop's answer is exactly "at least two points and some segment within the stroke's threshold" |
| HitTest.DoesAnnotationHitPoint | src/pages/documentWorkspace/hooks/useDocumentWorkspaceController.js:119-136 | the answer is exactly the hit property of the annotation's type |
| HitTest.OnlyTargetTypesHit | src/pages/documentWorkspace/hooks/useDocumentWorkspaceController.js:37-120 | only highlights, underlines, strike-throughs and strokes can be hit; a note never is |
| HitTest.HighlightHitInsidePaddedBox | src/pages/documentWorkspace/hooks/useDocumentWorkspaceController.js:121-127 | a highlight is hit exactly inside one of its rects or its position, padded by 0.015 |
| HitTest.ShortStrokeNeverHit | src/pages/documentWorkspace/hooks/useDocumentWorkspaceController.js:80 | a stroke with fewer than two points is never hit |
| HitTest.StrokeHitAtVertex | src/pages/documentWorkspace/hooks/useDocumentWorkspaceController.js:78-89 | touching any point of a stroke of two or more points hits it |
| HitTest.LineHitAtEnds | src/pages/documentWorkspace/hooks/useDocumentWorkspaceController.js:91-95 | touching either end of an underline or strike-through hits it |
| WorkspaceErase.FirstHitFrom | src/pages/documentWorkspace/hooks/useDocumentWorkspaceController.js:750-760 | the first index at or after `from` whose annotation is on the page and touched, with nothing touched before it; none exactly when nothing from there on is touched |
| WorkspaceErase.EraseFirstHit | src/pages/documentWorkspace/hooks/useDocumentWorkspaceController.js:747-765 | the copy loop returns the list with the first touched annotation taken out, or the list itself; `changed` exactly when something was touched |
| WorkspaceErase.EraseRemovesFirstHitOnly | src/pages/documentWorkspace/hooks/useDocumentWorkspaceController.js:750-764 | one dab removes at most one annotation, the first touched in list order; the list comes back unchanged exactly when nothing on the page is touched |
| WorkspaceErase.EraseRemovesOnlyTargets | src/pages/documentWorkspace/hooks/useDocumentWorkspaceController.js:754-755 | what a dab removes is on the dab's page and is a highlight, line or stroke, never a note |
| WorkspaceErase.EraseKeepsNotesAndOtherPages | src/pages/documentWorkspace/hooks/useDocumentWorkspaceController.js:754-755 | every note and every annotation of another page survives a dab |
| WorkspaceErase.EraseKeepsPageOrder | src/pages/documentWorkspace/hooks/useDocumentWorkspaceController.js:750-762 | the remaining annotations keep their order, so a list sorted by page stays sorted |
| WorkspaceErase.FirstHitIs | src/pages/documentWorkspace/hooks/useDocumentWorkspaceController.js:750-760 | when annotation k is touched and none before it is, the dab removes annotation k |
| WorkspaceErase.FirstHitNone | src/pages/documentWorkspace/hooks/useDocumentWorkspaceController.js:750-765 | when no annotation is touched, the dab finds nothing |
| StableSort.Insert | src/pages/documentWorkspace/hooks/useDocumentWorkspaceController.js:739 | one element inserted: the length grows by one and the multiset gains exactly that element |
| StableSort.SortBy | src/pages/documentWorkspace/hooks/useDocumentWorkspaceController.js:739 | `Array.prototype.sort` with a numeric key comparator: same length, same multiset of elements |
| StableSort.InsertSorted | src/pages/documentWorkspace/hooks/useDocumentWorkspaceController.js:739 | inserting into a key-ordered list keeps it key-ordered |
| StableSort.SortBySorted | src/pages/documentWorkspace/hooks/useDocumentWorkspaceController.js:739 | the sort's result is ordered by key and is a permutation of its input |
| StableSort.SortByOfSorted | src/pages/documentWorkspace/hooks/useDocumentWorkspaceController.js:739 | a list already in key order comes back unchanged |
| WorkspaceSearch.OccurrencesExact | src/pages/documentWorkspace/hooks/useDocumentWorkspaceController.js:1599-1650 | resuming one past each hit reports exactly the offsets where the term occurs, overlapping ones included, strictly ascending |
| WorkspaceSearch.OccurrencesEnd | src/pages/documentWorkspace/hooks/useDocumentWorkspaceController.js:1600-1602 | the scan stops with nothing more when `indexOf` finds nothing or the term no longer fits |
| WorkspaceSearch.RangesLocateSpans | src/pages/documentWorkspace/hooks/useDocumentWorkspaceController.js:1585-1595 | every span range names a non-empty span and points at exactly that span's text in the page text |
| WorkspaceSearch.SearchRect | src/pages/documentWorkspace/hooks/useDocumentWorkspaceController.js:1628-1634 | a text-layer rectangle lies in the page and measures at least 0.002 by 0.003 |
| WorkspaceSearch.SearchRects | src/pages/documentWorkspace/hooks/useDocumentWorkspaceController.js:1624-1635 | the search rectangles are exactly those of the client rectangles with a positive width and height, and never more than there are client rectangles |
| WorkspaceSearch.CollectExact | src/pages/documentWorkspace/hooks/useDocumentWorkspaceController.js:1641-1647 | the collected matches are exactly those kept for some offset |
| WorkspaceSearch.MatchOfRectsExact | src/pages/documentWorkspace/hooks/useDocumentWorkspaceController.js:1641-1647 | a match is kept for an offset exactly when the offset has rectangles, and it carries its layer's id, the page and those rectangles |
| WorkspaceSearch.ScanMatches | src/pages/documentWorkspace/hooks/useDocumentWorkspaceController.js:1599-1650 | the scan loop returns what each occurrence of the term, in order, yields |
| WorkspaceSearch.FindNext | src/pages/documentWorkspace/hooks/useDocumentWorkspaceController.js:1601-1603 | one `indexOf`: none exactly when no occurrence is left; otherwise the next occurrence, which fits in the text |
| WorkspaceSearch.ScanDone | src/pages/documentWorkspace/hooks/useDocumentWorkspaceController.js:1600-1602 | when nothing is left to report, the offsets seen are all the occurrences |
| WorkspaceSearch.LayOutSpans | src/pages/documentWorkspace/hooks/useDocumentWorkspaceController.js:1585-1595 | the span loop builds the page text and the ranges of the non-empty spans |
| WorkspaceSearch.SearchTextLayer | src/pages/documentWorkspace/hooks/useDocumentWorkspaceController.js:1580-1653 | the text-layer search of one page returns its text-layer matches |
| WorkspaceSearch.TextLayerExact | src/pages/documentWorkspace/hooks/useDocumentWorkspaceController.js:1580-1653 | a page's text-layer matches are exactly the occurrences of the term in its lowercased text that have a rectangle to paint |
| WorkspaceSearch.WordChars | src/pages/documentWorkspace/hooks/useDocumentWorkspaceController.js:1667-1675 | one index entry per letter of the word, with the letter, its place in the word and the word's index |
| WorkspaceSearch.CharIndexFaithful | src/pages/documentWorkspace/hooks/useDocumentWorkspaceController.js:1660-1688 | every entry of the character index names its word and its letter there (or is a joining space), and the entries come in word order |
| WorkspaceSearch.BuildCharIndex | src/pages/documentWorkspace/hooks/useDocumentWorkspaceController.js:1660-1688 | the character-index loop builds the index: each non-empty word's letters, then a space unless it is the last word |
| WorkspaceSearch.AppendWordChars | src/pages/documentWorkspace/hooks/useDocumentWorkspaceController.js:1667-1675 | the inner loop appends exactly the word's letter entries |
| WorkspaceSearch.AppendWordEntry | src/pages/documentWorkspace/hooks/useDocumentWorkspaceController.js:1663-1688 | one pass appends exactly word `w`'s entry |
| WorkspaceSearch.IndexText | src/pages/documentWorkspace/hooks/useDocumentWorkspaceController.js:1691 | the searchable OCR text has one character per index entry, that entry's character |
| WorkspaceSearch.AddToGroups | src/pages/documentWorkspace/hooks/useDocumentWorkspaceController.js:1709-1716 | a character either joins its word's group or opens one new group |
| WorkspaceSearch.Letters | src/pages/documentWorkspace/hooks/useDocumentWorkspaceController.js:1730 | exactly the non-negative letter positions (the joining spaces dropped) |
| WorkspaceSearch.MinInt | src/pages/documentWorkspace/hooks/useDocumentWorkspaceController.js:1738 | `Math.min` of the positions: a lower bound that is one of them |
| WorkspaceSearch.MaxInt | src/pages/documentWorkspace/hooks/useDocumentWorkspaceController.js:1739 | `Math.max` of the positions: an upper bound that is one of them |
| WorkspaceSearch.GroupRect | src/pages/documentWorkspace/hooks/useDocumentWorkspaceController.js:1722-1756 | a word group's rectangle lies in the page and measures at least 0.001 each way |
| WorkspaceSearch.Extend | src/pages/documentWorkspace/hooks/useDocumentWorkspaceController.js:1783-1787 | a merged rectangle keeps its corner, only grows, and reaches the new rectangle's right edge and height |
| WorkspaceSearch.MergeFrom | src/pages/documentWorkspace/hooks/useDocumentWorkspaceController.js:1767-1794 | at least one and at most as many merged rectangles as inputs, the first grown from the first input |
| WorkspaceSearch.MergeRects | src/pages/documentWorkspace/hooks/useDocumentWorkspaceController.js:1767-1794 | the merge loop computes the merge of the sorted rectangles |
| WorkspaceSearch.MergedNeighboursApart | src/pages/documentWorkspace/hooks/useDocumentWorkspaceController.js:1774-1792 | after merging no two neighbours could be merged again |
| WorkspaceSearch.MergedCoverInputs | src/pages/documentWorkspace/hooks/useDocumentWorkspaceController.js:1783-1792 | merging loses no rectangle: each input's right edge and height are reached by some merged rectangle |
| WorkspaceSearch.OcrRectsAt | src/pages/documentWorkspace/hooks/useDocumentWorkspaceController.js:1701-1803 | the per-match work of the OCR search returns that match's merged rectangles |
| WorkspaceSearch.SearchOcrLayer | src/pages/documentWorkspace/hooks/useDocumentWorkspaceController.js:1655-1808 | the OCR search of one page returns its OCR matches |
| WorkspaceSearch.OcrLayerExact | src/pages/documentWorkspace/hooks/useDocumentWorkspaceController.js:1655-1808 | a page's OCR matches are exactly the occurrences of the term in its lowercased OCR text that have a rectangle |
| WorkspaceSearch.LayerExact | src/pages/documentWorkspace/hooks/useDocumentWorkspaceController.js:1599-1650 | either layer's matches are exactly the occurrences with a rectangle, each on the layer's page with at least one rectangle |
| WorkspaceSearch.SearchPage | src/pages/documentWorkspace/hooks/useDocumentWorkspaceController.js:1573-1808 | the matches of one page: none for an unmounted or zero-sized overlay, otherwise text-layer matches then OCR ones |
| WorkspaceSearch.SearchPageAt | src/pages/documentWorkspace/hooks/useDocumentWorkspaceController.js:1573-1575 | one pass of the page loop yields that page's matches, none without a view |
| WorkspaceSearch.SearchPages | src/pages/documentWorkspace/hooks/useDocumentWorkspaceController.js:1568-1809 | the page loop yields the matches of pages 1 to `numPages`, page by page |
| WorkspaceSearch.Search | src/pages/documentWorkspace/hooks/useDocumentWorkspaceController.js:1553-1816 | `handleSearch` returns the results and active index of the reference search |
| WorkspaceSearch.SearchOutcome | src/pages/documentWorkspace/hooks/useDocumentWorkspaceController.js:1554-1562 | a blank term or an empty document finds nothing and leaves no result active; otherwise result 0 is active exactly when there is one, -1 exactly when there is none |
| WorkspaceSearch.SearchActiveInRange | src/pages/documentWorkspace/hooks/useDocumentWorkspaceController.js:1813 | the active index names a result or is -1 |
| WorkspaceSearch.PageMatchesAtOnPage | src/pages/documentWorkspace/hooks/useDocumentWorkspaceController.js:1642-1646 | every match of page `n` is on page `n` and has a rectangle |
| WorkspaceSearch.ResultsOnPages | src/pages/documentWorkspace/hooks/useDocumentWorkspaceController.js:1568-1809 | every result lies on a page of the document, and results come page by page |
| WorkspaceSearch.NavigationInRange | src/pages/documentWorkspace/hooks/useDocumentWorkspaceController.js:1859-1875 | both steps land on a result; from no active result, next goes to the first and previous to the last |
| WorkspaceSearch.NavigationInverse | src/pages/documentWorkspace/hooks/useDocumentWorkspaceController.js:1859-1875 | on a valid index next and previous undo each other, and next wraps from the last to the first |
| WorkspaceSearch.ActiveResultPage | src/pages/documentWorkspace/hooks/useDocumentWorkspaceController.js:1827-1832 | a page to show exactly when the active index names a result, and it is that result's page |
| DocumentWorkspace.PageStringReadsBack | src/pages/documentWorkspace/hooks/useDocumentWorkspaceController.js:278 | a clipping cut from page `n` reads back as page `n` |
| DocumentWorkspace.MovedNote | src/pages/documentWorkspace/hooks/useDocumentWorkspaceController.js:1193-1195 | the dragged note of the dragged page moves to the pointer less the grab offset, clamped to [0.02, 0.92]; every other annotation is unchanged |
| DocumentWorkspace.MoveNote | src/pages/documentWorkspace/hooks/useDocumentWorkspaceController.js:1191-1208 | the note drag maps every annotation by that rule, keeping the list's length |
| DocumentWorkspace.MoveNoteKeepsOrder | src/pages/documentWorkspace/hooks/useDocumentWorkspaceController.js:738-739 | a note drag keeps every page number, so a list in page order stays in order and re-sorting it changes nothing |
| DocumentWorkspace.MoveBookmark | src/pages/documentWorkspace/hooks/useDocumentWorkspaceController.js:1223-1252 | the dragged bookmark moves to the pointer less the grab offset, clamped to [0.05, 0.95]; the others do not move |
| DocumentWorkspace.FindBookmark | src/pages/documentWorkspace/hooks/useDocumentWorkspaceController.js:1217 | a found bookmark is in the list with that id; none exactly when no bookmark has it |
| DocumentWorkspace.RemoveBookmark | src/pages/documentWorkspace/hooks/useDocumentWorkspaceController.js:2448-2450 | exactly the bookmarks with another id stay |
| DocumentWorkspace.SelectionArea | src/pages/documentWorkspace/hooks/useDocumentWorkspaceController.js:844-849 | a note's area from a selection stays on the page with at least 2% of size each way |
| DocumentWorkspace.SweepResolves | src/pages/documentWorkspace/hooks/useDocumentWorkspaceController.js:2043-2051 | after the sweep every card resolves |
| DocumentWorkspace.ResolvesUnderPermutation | src/pages/documentWorkspace/hooks/useDocumentWorkspaceController.js:1433-1442 | whether cards resolve depends only on which clippings exist, not on their order |
| DocumentWorkspace.SelectionClip | src/pages/documentWorkspace/hooks/useDocumentWorkspaceController.js:1376-1418 | a clipping exactly when the text is non-empty and the stored selection has a range and a page; it carries the text, the area, the page (read back as that page) and source `PDF` |
| DocumentWorkspace.SelectionNoteArea | src/pages/documentWorkspace/hooks/useDocumentWorkspaceController.js:836-849 | an area exactly when there is a stored selection whose overlay is mounted with a size and whose range has a box; it is that box on the overlay |
| DocumentWorkspace.BookmarkOverlay | src/pages/documentWorkspace/hooks/useDocumentWorkspaceController.js:1179-1220 | this page's overlay when there is one; otherwise only the overlay of the dragged bookmark's own page |
| DocumentWorkspace.NoteAt | src/pages/documentWorkspace/hooks/useDocumentWorkspaceController.js:1125-1168 | a page note with the answer as content, on the selection's page when there is a selection, else on the pointer's page; it quotes the selection exactly when the selection's first rectangle was found |
| DocumentWorkspace.SketchNote | src/pages/documentWorkspace/hooks/useDocumentWorkspaceController.js:1025-1035 | a workspace note exactly for a stroke in comment mode with a bounding box and a non-blank answer; on that box and page, quoting "Freehand sketch" |
| DocumentWorkspace.WorkspaceController.constructor | src/pages/documentWorkspace/hooks/useDocumentWorkspaceController.js:143-178 | the hook's initial state: empty lists, no gesture, the select tool, default brush, no active search result |
| DocumentWorkspace.WorkspaceController.AddAnnotation | src/pages/documentWorkspace/hooks/useDocumentWorkspaceController.js:738-739 | `updateAnnotations`: the list with `a` appended, sorted by page; its multiset gains exactly `a` |
| DocumentWorkspace.WorkspaceController.EraseAt | src/pages/documentWorkspace/hooks/useDocumentWorkspaceController.js:741-767 | nothing for page 0; otherwise the first touched annotation on the page goes, and `didErase` says whether one did |
| DocumentWorkspace.WorkspaceController.AddNote | src/pages/documentWorkspace/hooks/useDocumentWorkspaceController.js:791-808 | a note in front of the others and its card in front of the other cards |
| DocumentWorkspace.WorkspaceController.CreateWorkspaceComment | src/pages/documentWorkspace/hooks/useDocumentWorkspaceController.js:769-833 | nothing without an area or with a blank or cancelled answer; otherwise the trimmed answer becomes a note with its card, plus, when asked, the linked page note sorted in by page |
| DocumentWorkspace.WorkspaceController.CommentFromSelection | src/pages/documentWorkspace/hooks/useDocumentWorkspaceController.js:835-862 | a note exactly with a usable selection area and a non-blank answer, quoting the selection, after which the selection is cleared; otherwise nothing changes |
| DocumentWorkspace.LineAnnotationFor | src/pages/documentWorkspace/hooks/useDocumentWorkspaceController.js:865-964 | a text tool makes an annotation exactly when the overlay is measured with a non-zero size, there is a selection and one of its rectangles is measurable; the annotation is on the selection's page |
| DocumentWorkspace.WorkspaceController.ApplyLineAnnotation | src/pages/documentWorkspace/hooks/useDocumentWorkspaceController.js:865-964 | with a selection and a measurable rectangle, one annotation of that kind on the selection's page sorted in, and the selection cleared; otherwise nothing changes |
| DocumentWorkspace.WorkspaceController.CommitLineAnnotation | src/pages/documentWorkspace/hooks/useDocumentWorkspaceController.js:926-963 | a made annotation is added and clears the selection; none changes nothing |
| DocumentWorkspace.WorkspaceController.SelectTool | src/pages/documentWorkspace/hooks/useDocumentWorkspaceController.js:2464-2493 | freehand toggles the palette when already active and otherwise activates freehand with the palette closed; a text tool keeps the active tool and, when the selection gives an annotation, sorts it in and clears the selection, otherwise changes nothing; any other button becomes the active tool |
| DocumentWorkspace.WorkspaceController.PointerDown | src/pages/documentWorkspace/hooks/useDocumentWorkspaceController.js:1063-1176 | per tool: the eraser erases under the pointer and starts an erasing gesture; the bookmark tool adds a bookmark and returns to select; drawing tools start their gesture; the comment tool adds a note when answered; without an overlay nothing changes |
| DocumentWorkspace.WorkspaceController.DropBookmark | src/pages/documentWorkspace/hooks/useDocumentWorkspaceController.js:1042-1060 | a bookmark at the pointer is appended and the tool returns to select |
| DocumentWorkspace.WorkspaceController.PlacePageNote | src/pages/documentWorkspace/hooks/useDocumentWorkspaceController.js:1153-1174 | a cancelled or empty answer changes nothing; otherwise the note is sorted in, the selection cleared and the tool back to select |
| DocumentWorkspace.WorkspaceController.StartErasing | src/pages/documentWorkspace/hooks/useDocumentWorkspaceController.js:1070-1088 | erase under the pointer, then an erasing gesture on this page |
| DocumentWorkspace.WorkspaceController.StartDrawing | src/pages/documentWorkspace/hooks/useDocumentWorkspaceController.js:1098-1123 | the gesture of the active tool starts at the pointer with the current brush |
| DocumentWorkspace.WorkspaceController.AddPageNote | src/pages/documentWorkspace/hooks/useDocumentWorkspaceController.js:1156-1173 | the note is sorted in, the selection cleared and the tool back to select |
| DocumentWorkspace.WorkspaceController.PointerMove | src/pages/documentWorkspace/hooks/useDocumentWorkspaceController.js:1178-1288 | a note drag moves the note; a bookmark drag moves the bookmark; an erasing gesture erases under the pointer; a gesture on this overlay takes the move; nothing else changes |
| DocumentWorkspace.WorkspaceController.AddClipping | src/pages/documentWorkspace/hooks/useDocumentWorkspaceController.js:1420-1426 | a clipping goes in front with the selection emptied, and its card is added at the page's share before the sweep |
| DocumentWorkspace.WorkspaceController.AddExtractedClip | src/pages/documentWorkspace/hooks/useDocumentWorkspaceController.js:271-289 | recognised text, even empty text, becomes an OCR clipping of the page in front of the others with its card, the tool back to select; no result (no rectangle or page, or the recogniser failed) changes nothing |
| DocumentWorkspace.WorkspaceController.FinalizeDrawing | src/pages/documentWorkspace/hooks/useDocumentWorkspaceController.js:967-1039 | the gesture ends and its outcome is applied as `OutcomeApplied` states it: a discarded gesture changes nothing; a clip area with recognised text adds it as an OCR clipping with its card, empties the selection and returns to select, and without text changes nothing; a highlight or stroke is sorted in, with a workspace note and its card first in comment mode; without a gesture nothing changes |
| DocumentWorkspace.WorkspaceController.ApplyOutcome | src/pages/documentWorkspace/hooks/useDocumentWorkspaceController.js:985-1037 | the whole new state after a finished gesture's outcome, as `OutcomeApplied` states it: annotations, clippings, cards, notes, selection and tool |
| DocumentWorkspace.WorkspaceController.CommitDrawing | src/pages/documentWorkspace/hooks/useDocumentWorkspaceController.js:1025-1037 | the finished annotation is sorted in; in comment mode a note on its bounding box comes first |
| DocumentWorkspace.WorkspaceController.OpenSketchNote | src/pages/documentWorkspace/hooks/useDocumentWorkspaceController.js:1025-1035 | the note a finished stroke opens, if any, goes in front with its card; otherwise nothing changes |
| DocumentWorkspace.WorkspaceController.PointerUp | src/pages/documentWorkspace/hooks/useDocumentWorkspaceController.js:1290-1335 | a note or bookmark drag ends and nothing else changes; otherwise the gesture ends: without an overlay nothing else changes; an erasing gesture erases once more and changes nothing else; a gesture of this overlay is finalised at the pointer, its outcome applied as `OutcomeApplied` states it; any other gesture is dropped with nothing else changed |
| DocumentWorkspace.WorkspaceController.StartDraggingNote | src/pages/documentWorkspace/hooks/useDocumentWorkspaceController.js:1338-1355 | only with the select tool: the grab offset from the note's position and its page are recorded |
| DocumentWorkspace.WorkspaceController.StartDraggingBookmark | src/pages/documentWorkspace/hooks/useDocumentWorkspaceController.js:1357-1373 | only with the select tool: the grab offset from the bookmark's position is recorded |
| DocumentWorkspace.WorkspaceController.ClipSelection | src/pages/documentWorkspace/hooks/useDocumentWorkspaceController.js:1376-1427 | the normalised text becomes a PDF clipping in front with its card and the selection cleared; nothing for empty text or a selection without page |
| DocumentWorkspace.WorkspaceController.ClipText | src/pages/documentWorkspace/hooks/useDocumentWorkspaceController.js:1382-1426 | as `ClipSelection`, once the text is normalised |
| DocumentWorkspace.WorkspaceController.ToggleClippingSelection | src/pages/documentWorkspace/hooks/useDocumentWorkspaceController.js:1429-1431 | the id is selected afterwards exactly when it was not before |
| DocumentWorkspace.WorkspaceController.ReorderClippings | src/pages/documentWorkspace/hooks/useDocumentWorkspaceController.js:1433-1442 | the clippings are reordered by the swap, a permutation of the old list |
| DocumentWorkspace.WorkspaceController.CombineSelected | src/pages/documentWorkspace/hooks/useDocumentWorkspaceController.js:1444-1502 | the corrected combine of the selected clippings (see Findings), then the card sweep |
| DocumentWorkspace.WorkspaceController.UncombineClipping | src/pages/documentWorkspace/hooks/useDocumentWorkspaceController.js:1504-1550 | the uncombine of the clipping, then the card sweep |
| DocumentWorkspace.WorkspaceController.RemoveClippingById | src/pages/documentWorkspace/hooks/useDocumentWorkspaceController.js:2436-2446 | the clipping, its cards and its selection entry go |
| DocumentWorkspace.WorkspaceController.RemoveBookmarkById | src/pages/documentWorkspace/hooks/useDocumentWorkspaceController.js:2448-2450 | the bookmarks without that id stay |
| DocumentWorkspace.WorkspaceController.DeleteWorkspaceComment | src/pages/documentWorkspace/hooks/useDocumentWorkspaceController.js:2452-2462 | nothing for an empty id; otherwise the note and its cards go |
| DocumentWorkspace.WorkspaceController.RunSearch | src/pages/documentWorkspace/hooks/useDocumentWorkspaceController.js:1553-1816 | the results and active index of the search for the current term |
| DocumentWorkspace.WorkspaceController.GoToNextResult | src/pages/documentWorkspace/hooks/useDocumentWorkspaceController.js:1859-1865 | nothing without results; otherwise the next index, wrapping |
| DocumentWorkspace.WorkspaceController.GoToPreviousResult | src/pages/documentWorkspace/hooks/useDocumentWorkspaceController.js:1867-1875 | nothing without results; otherwise the previous index, wrapping |
| DocumentWorkspace.WorkspaceController.FollowActiveResult | src/pages/documentWorkspace/hooks/useDocumentWorkspaceController.js:1827-1832 | with an active result the primary page becomes its page; otherwise it stays |
| ClippingText.TrimLines | src/pages/documentWorkspace/hooks/useDocumentWorkspaceController.js:103 | one trimmed line per line, each blank or free of space at both ends |
| ClippingText.ParagraphsTrimmed | src/pages/documentWorkspace/hooks/useDocumentWorkspaceController.js:102-115 | every paragraph the grouping produces is a non-empty line with no space at either end |
| ClippingText.JoinParagraph | src/pages/documentWorkspace/hooks/useDocumentWorkspaceController.js:106-114 | a paragraph's lines joined by spaces form one trimmed line starting with its first line's first character |
| ClippingText.Paragraphs | src/pages/documentWorkspace/hooks/useDocumentWorkspaceController.js:99-115 | every paragraph of a text is a trimmed, non-empty line |
| ClippingText.NormalizeClippingText | src/pages/documentWorkspace/hooks/useDocumentWorkspaceController.js:97-117 | the result has no carriage return and no space at either end |
| ClippingText.NormalizedIsParagraphs | src/pages/documentWorkspace/hooks/useDocumentWorkspaceController.js:97-117 | a non-empty text normalises to its paragraphs separated by a blank line; the final `trim` removes nothing |
| ClippingText.TrimOfParagraphs | src/pages/documentWorkspace/hooks/useDocumentWorkspaceController.js:116 | trimmed paragraphs joined by blank lines have nothing left for `trim` |
| ClippingText.SplitOfParagraphs | src/pages/documentWorkspace/hooks/useDocumentWorkspaceController.js:99-116 | splitting the joined paragraphs at line feeds gives each paragraph followed by an empty line, except the last |
| ClippingText.TrimLinesOfTrimmed | src/pages/documentWorkspace/hooks/useDocumentWorkspaceController.js:103 | trimming lines that are already trimmed changes none |
| ClippingText.ParagraphsOfInterleave | src/pages/documentWorkspace/hooks/useDocumentWorkspaceController.js:102-115 | grouping paragraphs separated by empty lines gives back the paragraphs |
| ClippingText.ParagraphsOfJoined | src/pages/documentWorkspace/hooks/useDocumentWorkspaceController.js:97-117 | reading paragraphs back from their joined text gives them again |
| ClippingText.NormalizedNonEmpty | src/pages/documentWorkspace/hooks/useDocumentWorkspaceController.js:97-117 | a non-empty result comes from a non-empty text with at least one paragraph |
| ClippingText.NormalizeOfJoined | src/pages/documentWorkspace/hooks/useDocumentWorkspaceController.js:97-117 | joined paragraphs are already normal |
| ClippingText.NormalizeIdempotent | src/pages/documentWorkspace/hooks/useDocumentWorkspaceController.js:97-117 | normalising normalised text changes nothing |
| ClippingOps.Without | src/pages/documentWorkspace/hooks/useDocumentWorkspaceController.js:1430 | the list without `id`: every other entry stays |
| ClippingOps.ToggleFlipsMembership | src/pages/documentWorkspace/hooks/useDocumentWorkspaceController.js:1429-1431 | toggling flips exactly the membership of `id`, and toggling an unselected id twice restores the selection |
| ClippingOps.WithoutAppended | src/pages/documentWorkspace/hooks/useDocumentWorkspaceController.js:1430 | appending an id and then dropping it is dropping it |
| ClippingOps.FindFrom | src/pages/documentWorkspace/hooks/useDocumentWorkspaceController.js:1435 | `findIndex`: the first index from `from` on with that id, none exactly when no clipping there has it |
| ClippingOps.ClampInt | src/pages/documentWorkspace/hooks/useDocumentWorkspaceController.js:1437 | the clamp of an index stays in range and keeps an index already in range |
| ClippingOps.ReorderClipping | src/pages/documentWorkspace/hooks/useDocumentWorkspaceController.js:1433-1442 | the copy-and-swap returns the reordered list |
| ClippingOps.ReorderPermutes | src/pages/documentWorkspace/hooks/useDocumentWorkspaceController.js:1433-1442 | reordering only permutes the list; an unknown id leaves it unchanged |
| ClippingOps.ReorderMovesOne | src/pages/documentWorkspace/hooks/useDocumentWorkspaceController.js:1435-1440 | the clipping lands on the clamped target index, the one there takes its place, and nothing else moves |
| ClippingOps.ReorderUndo | src/pages/documentWorkspace/hooks/useDocumentWorkspaceController.js:1433-1442 | with distinct ids, a move that stays inside the list is undone by the opposite move |
| ClippingOps.Selected | src/pages/documentWorkspace/hooks/useDocumentWorkspaceController.js:1448 | exactly the clippings whose id is selected |
| ClippingOps.Unselected | src/pages/documentWorkspace/hooks/useDocumentWorkspaceController.js:1467 | exactly the clippings whose id is not selected |
| ClippingOps.SegmentsOf | src/pages/documentWorkspace/hooks/useDocumentWorkspaceController.js:1450-1456 | one segment per selected clipping |
| ClippingOps.KeepUnselectedCards | src/pages/documentWorkspace/hooks/useDocumentWorkspaceController.js:1471-1475 | exactly the cards that are not clip cards of a selected clipping |
| ClippingOps.StaleSelectionDropsCardAsWritten | src/pages/documentWorkspace/hooks/useDocumentWorkspaceController.js:1445-1475 | with one real and one stale selected id, the as-written combine keeps the clipping but removes its card |
| ClippingOps.CombineKeepsSurvivorsCards | src/pages/documentWorkspace/hooks/useDocumentWorkspaceController.js:1444-1502 | the corrected combine never takes away the card of a clipping that is still in the list afterwards |
| ClippingOps.CombineShape | src/pages/documentWorkspace/hooks/useDocumentWorkspaceController.js:1447-1501 | two or more selected clippings become one `combined` clipping in front, whose segments are the selected clippings in order labelled `Segment 1`, …, followed by the unselected ones; the selection is cleared |
| ClippingOps.Restored | src/pages/documentWorkspace/hooks/useDocumentWorkspaceController.js:1509-1516 | one plain clipping per segment |
| WorkspaceTypes.WithoutId | src/pages/documentWorkspace/hooks/useDocumentWorkspaceController.js:1517 | `filter` on the id, for clippings here and for notes at line 2454: exactly the records with another id stay |
| ClippingOps.FindCombined | src/pages/documentWorkspace/hooks/useDocumentWorkspaceController.js:1505 | a found clipping is a `combined` one with that id; none exactly when there is no such clipping |
| ClippingOps.WithoutClipCards | src/pages/documentWorkspace/hooks/useDocumentWorkspaceController.js:1521-1524 | exactly the cards that are not clip cards of `id` |
| ClippingOps.SegmentCards | src/pages/documentWorkspace/hooks/useDocumentWorkspaceController.js:1531-1547 | one clip card per restored segment, for that segment, at height 0.5 |
| ClippingOps.PlainAll | src/pages/documentWorkspace/hooks/useDocumentWorkspaceController.js:1509-1516 | one plain clipping per clipping |
| ClippingOps.UncombineRestoresCombined | src/pages/documentWorkspace/hooks/useDocumentWorkspaceController.js:1444-1550 | splitting a freshly combined clipping restores the selected clippings in order, with their ids, contents, pages and areas, in front of the unselected ones |
| ClippingOps.UncombineFront | src/pages/documentWorkspace/hooks/useDocumentWorkspaceController.js:1508-1518 | splitting the clipping at the front restores its segments in front of the rest |
| ClippingOps.UncombineRemovesCombined | src/pages/documentWorkspace/hooks/useDocumentWorkspaceController.js:1504-1550 | after splitting, every segment is a clipping again, the combined clipping is gone, and so is its card |
| ClippingOps.RemoveClippingCascades | src/pages/documentWorkspace/hooks/useDocumentWorkspaceController.js:2436-2446 | after removal nothing refers to `id`, and every other clipping, card and selected id is kept |
| ClippingOps.RemoveThenSweep | src/pages/documentWorkspace/hooks/useDocumentWorkspaceController.js:2436-2446 | after a removal the sweep finds nothing more to drop when every card resolved before |
| ClippingOps.WithoutFreshClip | src/pages/documentWorkspace/hooks/useDocumentWorkspaceController.js:1517 | removing an id no clipping has leaves the list unchanged |
| Connectors.PageVisibility | src/pages/documentWorkspace/hooks/useDocumentWorkspaceController.js:2091-2107 | a mounted page lying inside the container is visible; one wholly above or below it is not; without the container or the page nothing is visible |
| Connectors.Along | src/pages/documentWorkspace/hooks/useDocumentWorkspaceController.js:2117-2144 | a fraction in [0,1] of a non-negative length lands between its two ends |
| Connectors.ScaleWithin | src/pages/documentWorkspace/hooks/useDocumentWorkspaceController.js:2143-2144 | a fraction in [0,1] of a non-negative length lies between 0 and that length |
| Connectors.CardAnchor | src/pages/documentWorkspace/hooks/useDocumentWorkspaceController.js:2116-2119 | a card's end of a connector lies on the workspace box, relative to the deck, for a card position in [0,1] |
| Connectors.PageAnchor | src/pages/documentWorkspace/hooks/useDocumentWorkspaceController.js:2137-2144 | a page's end of a connector lies on the measured page box, for an area centre in [0,1] |
| Connectors.ConnectorForPage | src/pages/documentWorkspace/hooks/useDocumentWorkspaceController.js:2122-2153 | a connector exactly when there is a source area, the page number is not 0 and the page is visible; it runs from the area's centre on the page to the card |
| Connectors.SegmentConnectors | src/pages/documentWorkspace/hooks/useDocumentWorkspaceController.js:2165-2170 | `map` then `filter(Boolean)`: never more connectors than segments |
| Connectors.SegmentConnectorsExact | src/pages/documentWorkspace/hooks/useDocumentWorkspaceController.js:2163-2171 | a combined clip's connectors are exactly its segments' connectors, one per segment when every segment has one |
| Connectors.ConnectorHasSegment | src/pages/documentWorkspace/hooks/useDocumentWorkspaceController.js:2165-2170 | every listed connector comes from some segment |
| Connectors.SegmentConnectorListed | src/pages/documentWorkspace/hooks/useDocumentWorkspaceController.js:2165-2170 | every segment's connector is listed |
| Connectors.SegmentConnectorsAll | src/pages/documentWorkspace/hooks/useDocumentWorkspaceController.js:2165-2170 | with every segment on a visible page there is one connector per segment |
| Connectors.ConnectorsEndAtCard | src/pages/documentWorkspace/hooks/useDocumentWorkspaceController.js:2110-2181 | a card's connectors need the deck, the workspace and a source; each ends at the card's anchor and starts at an area's centre on a visible page |
| Connectors.NoteConnector | src/pages/documentWorkspace/hooks/useDocumentWorkspaceController.js:2157-2161 | a note card has at most one connector, and one exactly when its note sits on a visible page |
| Connectors.CombinedClipConnectors | src/pages/documentWorkspace/hooks/useDocumentWorkspaceController.js:2163-2171 | a combined clip's card has at most one connector per segment, and one per segment when every segment has an area on a visible page |
| Connectors.FindNote | src/pages/documentWorkspace/components/ConnectorSvg.js:16 | the first note with the card's id: found in the list with that id, none exactly when no note has it |
| Connectors.FindClip | src/pages/documentWorkspace/components/ConnectorSvg.js:17 | the first clipping with the card's id: found in the list with that id, none exactly when no clipping has it |
| Connectors.CardSource | src/pages/documentWorkspace/components/ConnectorSvg.js:12-17 | a note card's source is a note with its id and any other card's a clipping with its id; none exactly when there is no such entry |
| Connectors.SCurve | src/pages/documentWorkspace/components/ConnectorSvg.js:25-27 | the S-curve runs from the connector's start to its end, both control points on the vertical halfway between them, level with each end |
| Connectors.SCurves | src/pages/documentWorkspace/components/ConnectorSvg.js:24-43 | one S-curve per connector, in order |
| Connectors.CardPathsFollowConnectors | src/pages/documentWorkspace/components/ConnectorSvg.js:11-44 | a card with no source draws nothing; otherwise exactly one path per connector, from its start to the card |
| Connectors.AllPaths | src/pages/documentWorkspace/components/ConnectorSvg.js:11-44 | the paths of each card, in card order |
| CombineFab.NextAction | src/pages/documentWorkspace/components/MultiClipCombineFab.js:24-49 | nothing without a selection; two or more ids call for combining them all, anchored at the last; a single id calls for uncombining when its first clipping is a combined one; the anchor is never empty |
| CombineFab.PositionBeside | src/pages/documentWorkspace/components/MultiClipCombineFab.js:59-62 | the button sits 12 pixels right of the anchor, level with its middle |
| CombineFab.ButtonForSelection | src/pages/documentWorkspace/components/MultiClipCombineFab.js:82-93 | whenever a button is shown, it reads "Combine n clips" for n selected ids, two or more, and a click combines them; otherwise it reads "Uncombine clip" and a click splits the one selected clipping; a shown button always does something |
| CombineFab.FindClipCombined | src/pages/documentWorkspace/components/MultiClipCombineFab.js:38-39 | when the first clipping with an id is combined, the workspace's search for a combined clipping with that id finds the same one |
| CombineFab.UncombineOfferedIsSplittable | src/pages/documentWorkspace/components/MultiClipCombineFab.js:38-41 | an uncombine button always names a clipping that the workspace's split finds |
| CombineFab.Fab.constructor | src/pages/documentWorkspace/components/MultiClipCombineFab.js:12-13 | no button at first |
| CombineFab.Fab.UpdateState | src/pages/documentWorkspace/components/MultiClipCombineFab.js:24-63 | the next action, shown beside its anchor when that is measured, and hidden otherwise; hidden without a selection |
| CombineFab.Fab.Click | src/pages/documentWorkspace/components/MultiClipCombineFab.js:80-93 | a hidden button does nothing; a shown one dispatches its action |
| DrawingGesture.StartGesture | src/pages/documentWorkspace/hooks/useDocumentWorkspaceController.js:1098-1121 | the gesture pointer-down starts is on this page and overlay, and is a freehand drag exactly for the freehand tool |
| DrawingGesture.MoveGesture | src/pages/documentWorkspace/hooks/useDocumentWorkspaceController.js:1272-1287 | a move keeps the gesture's page, overlay, kind, mode, brush size and pressure setting |
| DrawingGesture.Replay | src/pages/documentWorkspace/hooks/useDocumentWorkspaceController.js:1272-1287 | a run of moves keeps the same |
| DrawingGesture.Positions | src/pages/documentWorkspace/hooks/useDocumentWorkspaceController.js:1274 | the pointer positions of a run of moves, in order |
| DrawingGesture.FreehandStartSeeds | src/pages/documentWorkspace/hooks/useDocumentWorkspaceController.js:1107 | pointer-down seeds `[p, p]` in straight mode and `[p]` otherwise |
| DrawingGesture.FreeStrokeIsTrail | src/pages/documentWorkspace/hooks/useDocumentWorkspaceController.js:1283 | in free mode every move appends exactly its position: the stroke is the pointer trail |
| DrawingGesture.StraightStrokeKeepsAnchor | src/pages/documentWorkspace/hooks/useDocumentWorkspaceController.js:1279-1281 | in straight mode the stroke is always the fixed anchor and the latest position |
| DrawingGesture.MovesKeepStrokeShape | src/pages/documentWorkspace/hooks/useDocumentWorkspaceController.js:1275-1284 | moves keep two points in a straight stroke and at least one in a free one |
| DrawingGesture.DragRect | src/pages/documentWorkspace/hooks/useDocumentWorkspaceController.js:973-1001 | no area exactly when the drag is under 0.01 in either direction |
| DrawingGesture.BaseSize | src/pages/documentWorkspace/hooks/useDocumentWorkspaceController.js:1011 | `brushSize \|\| activeBrushSize \|\| DEFAULT_BRUSH_SIZE` is positive when the sizes are |
| DrawingGesture.AreaDragOutcome | src/pages/documentWorkspace/hooks/useDocumentWorkspaceController.js:972-1001 | a highlight or clip drag creates nothing exactly when under 0.01 either way; otherwise its area runs from the smaller to the larger coordinate of start and end and covers both |
| DrawingGesture.ClipNeverCommits | src/pages/documentWorkspace/hooks/useDocumentWorkspaceController.js:972-989 | a clip drag never adds an annotation, and only a clip drag cuts out a clipping, from its own page |
| DrawingGesture.StrokeWidthOfCommit | src/pages/documentWorkspace/hooks/useDocumentWorkspaceController.js:1002-1024 | a committed stroke has two points or more and a width of base size times pressure factor; the factor is 1 with pressure off and the last reading, in [0.25, 1.35], with it on |
| DrawingGesture.MovesKeepPressureRange | src/pages/documentWorkspace/hooks/useDocumentWorkspaceController.js:1276-1283 | the gesture's pressure stays in [0.25, 1.35] through any moves |
| DrawingGesture.FreehandGestureCommits | src/pages/documentWorkspace/hooks/useDocumentWorkspaceController.js:1098-1113 | a whole freehand gesture commits on its page: `[p0, end]` in straight mode, `p0`, the trail and `end` otherwise |
| DrawingGesture.NewBookmark | src/pages/documentWorkspace/hooks/useDocumentWorkspaceController.js:1046-1056 | the position is clamped to [0.05, 0.95] by [0.1, 0.9] and unchanged inside it; the note is the trimmed answer, none when blank or cancelled |
| DrawingGesture.PageNote | src/pages/documentWorkspace/hooks/useDocumentWorkspaceController.js:1156-1167 | a note at the point clamped to [0.05, 0.95], with no size, linked exactly when there is a quote |
| DrawingGesture.NotePlacement | src/pages/documentWorkspace/hooks/useDocumentWorkspaceController.js:1129-1151 | on the selection's page when there is a selection, else the pointer's; at the selection's centre and quoting it exactly when that centre is known, at the pointer otherwise |
| DrawingGesture.Measurable | src/pages/documentWorkspace/hooks/useDocumentWorkspaceController.js:913-915 | exactly the client rectangles at least 2 pixels wide and high |
| DrawingGesture.RelativeRects | src/pages/documentWorkspace/hooks/useDocumentWorkspaceController.js:920-925 | one overlay-relative rectangle per client rectangle |
| DrawingGesture.RectLine | src/pages/documentWorkspace/hooks/useDocumentWorkspaceController.js:941-947 | an underline at 90% of the rectangle's height, a strike-through at its middle, both across its width |
| DrawingGesture.TextAnnotation | src/pages/documentWorkspace/hooks/useDocumentWorkspaceController.js:908-961 | an annotation exactly with a selection and a measurable rectangle, on the selection's page: a text highlight with one rectangle per measurable one, or one line per rectangle |
| FreehandLayer.ThresholdSq | src/pages/documentWorkspace/components/WorkspaceFreehandLayer.js:37-42 | the square of the reach, at least 0.01 squared |
| FreehandLayer.Threshold | src/pages/documentWorkspace/components/WorkspaceFreehandLayer.js:38-40 | the reach is at least 0.01 and at least 1.5 widths (at least 4, 8 when unset) on the 1000-unit view box |
| FreehandLayer.ThresholdGrowsWithWidth | src/pages/documentWorkspace/components/WorkspaceFreehandLayer.js:37-42 | a wider stroke is never harder to hit |
| FreehandLayer.DoesStrokeHitPoint | src/pages/documentWorkspace/components/WorkspaceFreehandLayer.js:44-56 | the loop's answer is exactly "two points or more and some segment within reach"; never for a shorter stroke |
| FreehandLayer.StrokeHitAtItsPoints | src/pages/documentWorkspace/components/WorkspaceFreehandLayer.js:44-56 | a stroke of two points or more is hit at each of its own points |
| FreehandLayer.Unhit | src/pages/documentWorkspace/components/WorkspaceFreehandLayer.js:92 | exactly the strokes the pointer does not touch survive, in order |
| FreehandLayer.UnhitIdempotent | src/pages/documentWorkspace/components/WorkspaceFreehandLayer.js:90-93 | erasing twice at the same place removes nothing more |
| FreehandLayer.UnhitPrefix | src/pages/documentWorkspace/components/WorkspaceFreehandLayer.js:92 | one more stroke scanned survives exactly when it is not hit |
| FreehandLayer.EraseNear | src/pages/documentWorkspace/components/WorkspaceFreehandLayer.js:90-93 | `eraseStrokesNearPoint` keeps exactly the untouched strokes |
| FreehandLayer.MergedPoints | src/pages/documentWorkspace/components/WorkspaceFreehandLayer.js:227-233 | a straight line ends with anchor and end, a free stroke with its trail plus the end; two points or more either way |
| FreehandLayer.Layer.constructor | src/pages/documentWorkspace/components/WorkspaceFreehandLayer.js:68-69 | no strokes and no gesture at first |
| FreehandLayer.Layer.PointerDown | src/pages/documentWorkspace/components/WorkspaceFreehandLayer.js:95-158 | only the freehand tool and the eraser react, with the layer mounted: the eraser erases under the pointer and starts erasing; freehand starts a stroke at the pointer with the brush |
| FreehandLayer.Layer.PointerMove | src/pages/documentWorkspace/components/WorkspaceFreehandLayer.js:160-189 | erasing erases under the pointer; a stroke moves its end (straight) or extends its trail, with the new pressure; otherwise nothing |
| FreehandLayer.Layer.PointerUp | src/pages/documentWorkspace/components/WorkspaceFreehandLayer.js:191-260 | the gesture ends; erasing erases once more; a stroke is added with its merged points, width from size and pressure, its opacity and the colour |
| FreehandLayer.FinishedStrokeErasable | src/pages/documentWorkspace/components/WorkspaceFreehandLayer.js:227-260 | every stroke the layer adds has two points or more, so the eraser removes it when touched at its end point |
| HighlightCrop.RectSpans | src/pages/documentWorkspace/hooks/useDocumentWorkspaceController.js:481-482 | one span per highlight rectangle, from its top to its bottom and left to right edge |
| HighlightCrop.LineY1s | src/pages/documentWorkspace/hooks/useDocumentWorkspaceController.js:493 | the `y1` of every line, in order |
| HighlightCrop.LineXs | src/pages/documentWorkspace/hooks/useDocumentWorkspaceController.js:494 | both `x` ends of every line |
| HighlightCrop.MinTop | src/pages/documentWorkspace/hooks/useDocumentWorkspaceController.js:467-476 | `minY` starting at 1: at most 1, below every top, and either 1 or one of the tops |
| HighlightCrop.MaxBottom | src/pages/documentWorkspace/hooks/useDocumentWorkspaceController.js:467-478 | `maxY` starting at 0: at least 0, above every bottom, and either 0 or one of the bottoms |
| HighlightCrop.CropProgress | src/pages/documentWorkspace/hooks/useDocumentWorkspaceController.js:595-599 | in [0, 1]: 0 outside highlight view and at zoom 1 or below, the zoom less 1 between 1 and 2, 1 from 2 on |
| HighlightCrop.CropKeepsExtentVisible | src/pages/documentWorkspace/hooks/useDocumentWorkspaceController.js:604-609 | the visible band lies inside the page and always contains the highlighted extent |
| HighlightCrop.CropEnds | src/pages/documentWorkspace/hooks/useDocumentWorkspaceController.js:604-609 | at progress 0 the whole page shows; at progress 1 exactly the extent |
| HighlightCrop.SpansStayVisible | src/pages/documentWorkspace/hooks/useDocumentWorkspaceController.js:587-609 | every span of the page lies inside the visible band |
| HighlightCrop.HighlightGroups | src/pages/documentWorkspace/hooks/useDocumentWorkspaceController.js:562-583 | the grouping loop over the sorted spans computes the groups |
| HighlightCrop.GroupsOfSpans | src/pages/documentWorkspace/hooks/useDocumentWorkspaceController.js:562-583 | a page has a group exactly when it has spans; the groups are well formed and more than 2% apart |
| HighlightCrop.SeparatedGroupsAscend | src/pages/documentWorkspace/hooks/useDocumentWorkspaceController.js:570-577 | separated groups come in strictly increasing order |
| HighlightCrop.BuildMaskStops | src/pages/documentWorkspace/hooks/useDocumentWorkspaceController.js:632-699 | the `maskStops` pushes compute the stops of the groups |
| HighlightCrop.GapStopsAscend | src/pages/documentWorkspace/hooks/useDocumentWorkspaceController.js:642-667 | a gap's stops run from its start to its end in order |
| HighlightCrop.GroupStopsAscend | src/pages/documentWorkspace/hooks/useDocumentWorkspaceController.js:637-674 | a group's stops run from the current position to the group's bottom in order |
| HighlightCrop.MaskStopsAscend | src/pages/documentWorkspace/hooks/useDocumentWorkspaceController.js:632-699 | for groups on the page, the mask's stop positions never go backwards |
| HighlightCrop.ComputePageCrop | src/pages/documentWorkspace/hooks/useDocumentWorkspaceController.js:458-714 | no crop for a page without spans; otherwise the crop of its spans sorted by top at the page's crop progress |
| HighlightCrop.ExtentOfSorted | src/pages/documentWorkspace/hooks/useDocumentWorkspaceController.js:559-588 | sorting does not change the least top or the greatest bottom |
| HighlightCrop.AvgOfEqual | src/pages/documentWorkspace/hooks/useDocumentWorkspaceController.js:716-720 | every page shares the same progress, so the average is that progress |
| HighlightCrop.NaNBottomPoisonsExtent | src/pages/documentWorkspace/hooks/useDocumentWorkspaceController.js:478-537 | one `NaN` bottom makes `Math.max`'s `maxY` `NaN` |
| HighlightCrop.NoteWithoutSizeBreaksCropAsWritten | src/pages/documentWorkspace/hooks/useDocumentWorkspaceController.js:531-609 | as written, one note without a height makes the page's `visibleBottom` `NaN` at every crop progress |
| HighlightCrop.NoteWithoutSizeBoundsCrop | src/pages/documentWorkspace/hooks/useDocumentWorkspaceController.js:531-609 | with a missing size read as 0, the note's own point is its span and the visible band contains it |
| PageBookmarks.Without | src/pages/documentWorkspace/hooks/useBookmarks.js:36 | the list without `n`: every other page stays, still without duplicates |
| PageBookmarks.Toggled | src/pages/documentWorkspace/hooks/useBookmarks.js:32-42 | `n` is present afterwards exactly when it was absent; every other page keeps its membership; no page appears twice |
| PageBookmarks.ToggleTwice | src/pages/documentWorkspace/hooks/useBookmarks.js:32-42 | toggling the same page twice gives back the same set |
| PageBookmarks.ToggleTwiceFromAbsent | src/pages/documentWorkspace/hooks/useBookmarks.js:32-42 | toggling an absent page twice gives back the very same list |
| PageBookmarks.SortedPages | src/pages/documentWorkspace/hooks/useBookmarks.js:50-52 | the bookmarked pages in strictly ascending order, each once, a permutation of the set |
| PageBookmarks.BookmarkSet.constructor | src/pages/documentWorkspace/hooks/useBookmarks.js:8 | no bookmark at first |
| PageBookmarks.BookmarkSet.Toggle | src/pages/documentWorkspace/hooks/useBookmarks.js:32-42 | the page is bookmarked afterwards exactly when it was not; every other page is unchanged |
| PageBookmarks.BookmarkSet.Sorted | src/pages/documentWorkspace/hooks/useBookmarks.js:50-52 | exactly the bookmarked pages, strictly ascending |
| PageBookmarks.BookmarkSet.Clear | src/pages/documentWorkspace/hooks/useBookmarks.js:55-57 | no page is bookmarked afterwards |
| HighlightCrop.GroupsFromShape | src/pages/documentWorkspace/hooks/useDocumentWorkspaceController.js:562-583 | grouping from an open group yields at least one group, starting at the open group's top, well formed and separated |
| HighlightCrop.SumOfEqual | src/pages/documentWorkspace/hooks/useDocumentWorkspaceController.js:717-719 | progresses that are all equal add up to their count times that progress |
| PageBookmarks.WithoutLast | src/pages/documentWorkspace/hooks/useBookmarks.js:32-42 | adding an absent page and removing it again gives back the same list |
| PageBookmarks.StrictlySorted | src/pages/documentWorkspace/hooks/useBookmarks.js:50-52 | pages sorted by value without duplicates are strictly ascending |
| OcrPipeline.CollapseSpaces | src/pages/documentWorkspace/hooks/useOcr.js:48 | every white-space character of the result is a plain space and no two are adjacent; the result is empty exactly when the text is, and starts with white space exactly when the text does |
| OcrPipeline.PageText | src/pages/documentWorkspace/hooks/useOcr.js:48 | the judged text is no longer than the joined item strings |
| OcrPipeline.CollapseKeepsNonSpaces | src/pages/documentWorkspace/hooks/useOcr.js:48 | collapsing keeps every character that is not white space, in order |
| OcrPipeline.CollapseKeepsRuns | src/pages/documentWorkspace/hooks/useOcr.js:48 | collapsing keeps the number of white-space runs, so each run becomes exactly one space |
| OcrPipeline.CollapseFixesSingleSpaced | src/pages/documentWorkspace/hooks/useOcr.js:48 | collapsing leaves a text unchanged exactly when it is already single-spaced |
| OcrPipeline.PageTextNormalised | src/pages/documentWorkspace/hooks/useOcr.js:48 | the judged text is single-spaced, has no white space at either end, and keeps every other character of the joined items in order |
| OcrPipeline.LetterCount | src/pages/documentWorkspace/hooks/useOcr.js:51 | the ASCII letters are at most the text's length |
| OcrPipeline.RealTextLayerExactly | src/pages/documentWorkspace/hooks/useOcr.js:44-58 | native text exactly when the text has at least 50 characters and 10 letters, letters are at least a quarter of it, it has 8 words and one is longer than 5; never for an unreadable page |
| OcrPipeline.TooFewLetters | src/pages/documentWorkspace/hooks/useOcr.js:52 | `letters / length < 0.25` holds exactly when four times the letters fall short of the length |
| OcrPipeline.ShareBound | src/pages/documentWorkspace/hooks/useOcr.js:52 | the real-valued share test and the integer test agree for every non-empty text |
| OcrPipeline.ShortTextIsNotNative | src/pages/documentWorkspace/hooks/useOcr.js:50 | items joining to fewer than 50 characters are never native text |
| OcrPipeline.LetterlessTextIsNotNative | src/pages/documentWorkspace/hooks/useOcr.js:51-52 | items without an ASCII letter are never native text |
| OcrPipeline.UnitClamp | src/pages/documentWorkspace/hooks/useOcr.js:139-142 | the value clamped into [0, 1], unchanged when already inside |
| OcrPipeline.Convert | src/pages/documentWorkspace/hooks/useOcr.js:138-143 | every converted coordinate lies in [0, 1], and a coordinate inside the page is its share of the page size |
| OcrPipeline.ConvertKeepsOrder | src/pages/documentWorkspace/hooks/useOcr.js:138-143 | a box with its left edge before its right edge and its top above its bottom keeps both after conversion |
| OcrPipeline.TsvWord | src/pages/documentWorkspace/hooks/useOcr.js:165-184 | a word row gives a word whose text is column 11, which is non-empty, and whose box is the converted box with left and top from columns 6 and 7 and right and bottom grown by the width and height of columns 8 and 9 |
| OcrPipeline.TsvWords | src/pages/documentWorkspace/hooks/useOcr.js:163-187 | no more words than rows; the words are exactly those of the rows that are not blank and are word rows |
| OcrPipeline.ParseTsv | src/pages/documentWorkspace/hooks/useOcr.js:161-188 | every parsed word has text and a box, and the words are exactly those of the output's lines that are not blank and are word rows |
| OcrPipeline.TsvWordsOfRow | src/pages/documentWorkspace/hooks/useOcr.js:163-184 | a single row gives its word exactly when it is not blank and is a word row (level "5", confidence not "-1", text present), and nothing otherwise; with TsvWordsAppend, the words are those of the word rows in row order |
| OcrPipeline.TsvWordsAppend | src/pages/documentWorkspace/hooks/useOcr.js:163-187 | words keep the order of their rows: parsing two blocks of rows gives the words of the first followed by those of the second |
| OcrPipeline.NoConfidenceRowSkipped | src/pages/documentWorkspace/hooks/useOcr.js:174 | a row with confidence "-1" yields no word |
| OcrPipeline.Round | src/pages/documentWorkspace/hooks/useOcr.js:191 | `Math.round`: the nearest integer, halves upwards |
| OcrPipeline.RecognisedWords | src/pages/documentWorkspace/hooks/useOcr.js:145-188 | the recogniser's own words, each with its text and converted box, when it gave any; else the TSV words when there is TSV output; else none |
| OcrPipeline.RecognisedBoxesInPage | src/pages/documentWorkspace/hooks/useOcr.js:138-188 | every recognised word box lies inside the unit page |
| OcrPipeline.RecognisedResult | src/pages/documentWorkspace/hooks/useOcr.js:190-212 | not native text, the trimmed text, the recognised words, the rounded confidence or 90 when the recogniser gave 0 |
| OcrPipeline.NativeResult | src/pages/documentWorkspace/hooks/useOcr.js:62-91 | native text at confidence 100, its text as the native test reads it, and one word per item boxed from the item's origin up by its height |
| OcrPipeline.NativeWords | src/pages/documentWorkspace/hooks/useOcr.js:67-76 | one confidence-100 word per text item, with its string and its box |
| OcrPipeline.OcrState.constructor | src/pages/documentWorkspace/hooks/useOcr.js:9-16 | no result, no progress, no job and neither flag set |
| OcrPipeline.OcrState.BeginJob | src/pages/documentWorkspace/hooks/useOcr.js:18-21 | one more job, and the running flag is set |
| OcrPipeline.OcrState.EndJob | src/pages/documentWorkspace/hooks/useOcr.js:23-26 | one job fewer but never below zero; the running flag is set exactly while a job is still active |
| OcrPipeline.OcrState.RecognisePage | src/pages/documentWorkspace/hooks/useOcr.js:109-232 | the job count and flags come back to where they were; on success the page gets its recognised result and "Done" at 100, on failure only "Failed" at 0 |
| OcrPipeline.OcrState.ExtractTextForPage | src/pages/documentWorkspace/hooks/useOcr.js:235-254 | a page with a real text layer gets the native result and "Native text" at 100 and is not recognised; any other page gets a recognised result, never marked native, or none when recognition fails |
| OcrPipeline.OcrState.StoreNative | src/pages/documentWorkspace/hooks/useOcr.js:238-250 | the page's result becomes the given native result, its progress "Native text" at 100, and nothing else changes |
| OcrPipeline.OcrState.StartBatch | src/pages/documentWorkspace/hooks/useOcr.js:263-273 | nothing starts without a document, while a batch runs or with no worker; otherwise the batch flag is set, every page is counted, and page p goes to worker (p − 1) mod the pool size |
| OcrPipeline.OcrState.FinishBatch | src/pages/documentWorkspace/hooks/useOcr.js:274-276 | the batch flag clears |
| OcrTextLayer.Kept | src/pages/documentWorkspace/components/OcrTextLayer.js:21 | only words with text and a box, and every such word of the input |
| OcrTextLayer.BrokenGrowLast | src/pages/documentWorkspace/components/OcrTextLayer.js:41-43 | adding a word to the current line keeps every line break where it was |
| OcrTextLayer.BrokenNewLine | src/pages/documentWorkspace/components/OcrTextLayer.js:44-47 | starting a new line after a jump of more than 0.015 keeps every line break justified |
| OcrTextLayer.GroupWordsByLines | src/pages/documentWorkspace/components/OcrTextLayer.js:16-55 | no lines for no placeable word; reading the lines back gives the sorted words exactly; within a line each word is within 0.015 of the one before, and each new line starts more than 0.015 away; no line is empty |
| OcrTextLayer.GroupedWordsArePermutation | src/pages/documentWorkspace/components/OcrTextLayer.js:20-52 | the lines hold each placeable word exactly as often as the input does, and nothing else |
| OcrTextLayer.CopyText | src/pages/documentWorkspace/components/OcrTextLayer.js:96-118 | nothing for an empty selection or an empty rebuilt text; otherwise the selected words' lines rebuilt |
| OcrTextLayer.SelectedTexts | src/pages/documentWorkspace/components/OcrTextLayer.js:102-108 | at most one text per word of the line |
| OcrTextLayer.LineTexts | src/pages/documentWorkspace/components/OcrTextLayer.js:100-113 | only non-empty line texts are kept |
| OcrTextLayer.JoinSnoc | src/pages/documentWorkspace/components/OcrTextLayer.js:105-111 | gluing a part onto a non-empty join puts exactly one separator before it |
| OcrTextLayer.JoinEmpty | src/pages/documentWorkspace/components/OcrTextLayer.js:109-115 | a join of non-empty parts is empty only when there are none |
| OcrTextLayer.LineTextIsJoin | src/pages/documentWorkspace/components/OcrTextLayer.js:101-108 | a line's copy is its selected words joined by single spaces |
| OcrTextLayer.CopiedTextIsJoin | src/pages/documentWorkspace/components/OcrTextLayer.js:99-113 | the copy is the non-empty line texts joined by newlines |
| OcrTextLayer.UnselectedLineIsSkipped | src/pages/documentWorkspace/components/OcrTextLayer.js:109-112 | a line with no selected word adds nothing, not even a newline |
| OcrTextLayer.Place | src/pages/documentWorkspace/components/OcrTextLayer.js:146-152 | left and top from the box; width at least 0.3% and height at least 0.5%, at most 100%; the box's own size when it is above the minimum |
| AnnotablePage.NormalizeFlat | src/components/pieces/annotablePage/AnnotablePage.js:54-57 | as many entries as the stroke, each x over the width and each y over the height |
| AnnotablePage.DenormalizeFlat | src/components/pieces/annotablePage/AnnotablePage.js:67-70 | as many entries as the stroke, each x times the width and each y times the height |
| AnnotablePage.FlatRoundTrip | src/components/pieces/annotablePage/AnnotablePage.js:54-70 | normalising then denormalising a stroke with the same stage size gives it back, and the other way round |
| AnnotablePage.DenormalizeAfterNormalize | src/components/pieces/annotablePage/AnnotablePage.js:54-70 | a stored stroke is drawn where it was made |
| AnnotablePage.NormalizeAfterDenormalize | src/components/pieces/annotablePage/AnnotablePage.js:54-70 | a drawn stroke stored again is the stored stroke |
| AnnotablePage.NormalizeMark | src/components/pieces/annotablePage/AnnotablePage.js:46-57 | the mark keeps its kind and its id |
| AnnotablePage.DenormalizeMark | src/components/pieces/annotablePage/AnnotablePage.js:59-70 | the mark keeps its kind and its id |
| AnnotablePage.MarkRoundTrip | src/components/pieces/annotablePage/AnnotablePage.js:46-70 | a rectangle or stroke stored and drawn at the same stage size is drawn where it was made |
| AnnotablePage.Flipped | src/components/pieces/annotablePage/AnnotablePage.js:334-342 | a drag to the left or upwards becomes the same box with a non-negative width and height |
| AnnotablePage.SpliceStart | src/components/pieces/annotablePage/AnnotablePage.js:452 | `splice`'s start is never past the end and is the index itself when inside the list |
| AnnotablePage.SpliceOne | src/components/pieces/annotablePage/AnnotablePage.js:452 | the entry at an index inside the list goes; an index past the end changes nothing |
| AnnotablePage.RemoveAt | src/components/pieces/annotablePage/AnnotablePage.js:422-434 | the entry at an index inside the list goes; any other index changes nothing |
| AnnotablePage.ClearedComments | src/components/pieces/annotablePage/AnnotablePage.js:454-456 | a group's comments become empty when it had a list; an absent list stays absent |
| AnnotablePage.EraseTarget | src/components/pieces/annotablePage/AnnotablePage.js:444-470 | the id sent for deletion is non-empty and belongs to an existing item, and is the erased highlight's id for a group highlight |
| AnnotablePage.MarkCountAppend | src/components/pieces/annotablePage/AnnotablePage.js:432-470 | the marks of two lists add up |
| AnnotablePage.MarkCountSplit | src/components/pieces/annotablePage/AnnotablePage.js:432-470 | the marks of a list are those before an item, the item's own, and those after |
| AnnotablePage.EraseRemovesOne | src/components/pieces/annotablePage/AnnotablePage.js:439-470 | an index outside the list changes nothing; the items before the erased one stay; one mark goes for a single shape or a group highlight, all of a group's marks for a whole group |
| AnnotablePage.EraseGroupHighlight | src/components/pieces/annotablePage/AnnotablePage.js:447-457 | erasing one of several highlights keeps the group with its other highlights in order, clears its comments, and leaves the other items alone |
| AnnotablePage.EraseLastHighlightRemovesGroup | src/components/pieces/annotablePage/AnnotablePage.js:458-460 | erasing a group's only highlight removes the group |
| AnnotablePage.ErasedGroupCommentEditFailsAsWritten | src/components/pieces/annotablePage/AnnotablePage.js:396-456 | as written, a group that lost one of its two highlights has an empty comment list, and editing its comment writes into an entry that does not exist |
| AnnotablePage.EditFirstComment | src/components/pieces/annotablePage/AnnotablePage.js:396-403 | the first comment carries the typed text and keeps its time, the others stay; an absent or empty list gets one new comment |
| AnnotablePage.EditFirstCommentAgrees | src/components/pieces/annotablePage/AnnotablePage.js:396-403 | wherever the edit as written succeeds, the corrected edit gives the same comments |
| AnnotablePage.Page.constructor | src/components/pieces/annotablePage/AnnotablePage.js:25-32 | nothing stored, pending or being drawn, nothing selected, the comment closed and empty |
| AnnotablePage.Page.MouseDown | src/components/pieces/annotablePage/AnnotablePage.js:265-292 | a press on the stage or image while drawing starts a stroke at the pointer or an empty rectangle there and clears selection and comment; any other press changes nothing |
| AnnotablePage.Page.MouseMove | src/components/pieces/annotablePage/AnnotablePage.js:294-308 | a stroke gains the pointer's x and y at its end; a rectangle stretches to the pointer; nothing else changes |
| AnnotablePage.Page.FinishStroke | src/components/pieces/annotablePage/AnnotablePage.js:317-331 | the stroke, normalised, becomes the last pending highlight being edited with its comment open, or a stored annotation; the stroke in progress clears |
| AnnotablePage.Page.FinishRect | src/components/pieces/annotablePage/AnnotablePage.js:332-353 | a drag of more than 5 pixels both ways is flipped, normalised and added as the pending highlight being edited; a smaller one is dropped; the rectangle in progress clears |
| AnnotablePage.Page.MouseUp | src/components/pieces/annotablePage/AnnotablePage.js:310-354 | the current tool's stroke or rectangle is finished; nothing changes when there is none or the tool is not drawing |
| AnnotablePage.Page.CommentChange | src/components/pieces/annotablePage/AnnotablePage.js:376-404 | a non-blank comment on a pending highlight stores all pending highlights as one selected group with that comment, adding exactly their marks; otherwise the selected item's first comment takes the text, by the corrected edit (see Findings) |
| AnnotablePage.Page.StorePendingGroup | src/components/pieces/annotablePage/AnnotablePage.js:380-393 | the pending highlights become one stored group carrying the comment, they are no longer pending, and the group is selected |
| AnnotablePage.Page.EditSelectedComment | src/components/pieces/annotablePage/AnnotablePage.js:396-403 | only the selected item changes, its first comment taking the text by the corrected edit (see Findings) |
| AnnotablePage.Page.FirstCommentText | src/components/pieces/annotablePage/AnnotablePage.js:366-370 | the first comment's text, or "" when there is none |
| AnnotablePage.Page.AnnotationClick | src/components/pieces/annotablePage/AnnotablePage.js:359-374 | the clicked item becomes the only selection, its first comment fills the comment box, and the comment opens for editing |
| AnnotablePage.Page.Delete | src/components/pieces/annotablePage/AnnotablePage.js:419-430 | the selected stored item goes, or else the selected pending highlight, and that selection clears; the comment closes either way |
| AnnotablePage.Page.Erase | src/components/pieces/annotablePage/AnnotablePage.js:432-470 | a pending index drops that pending highlight; otherwise the stored items change as the erase rule says, the erased item's id is reported, and its selection clears |
| AnnotablePage.MovesKeepPairs | src/components/pieces/annotablePage/AnnotablePage.js:278-306 | however many moves a stroke has, it is a whole number of (x, y) pairs, two entries per move |
| AnnotationApi.Or | src/utils/connectors/annotationApi.js:18 | `s \|\| d` on a string: the string itself when non-empty, and never empty unless the default is |
| AnnotationApi.FirstPageNumberOfList | src/utils/connectors/annotationApi.js:16-85 | a page list such as "3, 5", or a single page "3", gives its first page |
| AnnotationApi.PayloadPage | src/utils/connectors/annotationApi.js:16 | `page_number` is never 0: `pageNumber` when set, else the first page of `sourcePage` when it is a non-zero integer, else 1 |
| AnnotationApi.HighlightRects | src/utils/connectors/annotationApi.js:24-29 | a highlight's `rects` when present, else one rectangle from its position, else none |
| AnnotationApi.WireSegments | src/utils/connectors/annotationApi.js:103-108 | one wire segment per segment, keeping its content and id, its own label and order or "Segment N" and N counting from 1 |
| AnnotationApi.GeneratedLabelsDistinct | src/utils/connectors/annotationApi.js:105-106 | segments without labels or orders of their own get the orders 1, 2, 3, … and pairwise distinct labels |
| AnnotationApi.SegmentLabelInjective | src/utils/connectors/annotationApi.js:105 | two different segment numbers never give the same label |
| AnnotationApi.ClippingSourcePage | src/utils/connectors/annotationApi.js:85-86 | the first page of `sourcePage` when it parses, else `pageNumber \|\| 1` |
| AnnotationApi.CombinedSourcePage | src/utils/connectors/annotationApi.js:90-93 | the first segment's first page when that parses, else the clipping's own page |
| AnnotationApi.ForApi | src/utils/connectors/annotationApi.js:13-135 | a payload exactly for the six known types, with the document id, a non-zero page and a non-empty colour; a highlight's opacity and rectangles; lines or points with a non-zero width; a comment's default position and non-zero size; a clipping combined exactly when it has segments |
| AnnotationApi.NormalizePage | src/utils/connectors/annotationApi.js:261-265 | 1 for a page that does not parse; a page below 1 is counted from 0 and moved up by one |
| AnnotationApi.NormalizedPagesStartAtOne | src/utils/connectors/annotationApi.js:261-265 | a page written as a non-negative integer normalises to a page from 1 on, 0 and 1 both giving 1 |
| AnnotationApi.NormalizedPageOf | src/utils/connectors/annotationApi.js:261-265 | "n…" normalises to n, or to 1 for 0 |
| AnnotationApi.SegmentFromApi | src/utils/connectors/annotationApi.js:266-283 | the segment keeps its id, label and order, and its page is its own, else its `page_number`, else the clipping's, normalised |
| AnnotationApi.SegmentsFromApi | src/utils/connectors/annotationApi.js:266-283 | one segment per wire segment, in order |
| AnnotationApi.FromApi | src/utils/connectors/annotationApi.js:206-306 | nothing exactly for an unknown type without clipping data, where a bare "text" row has clipping data exactly when its `source_rect_x` is truthy in JavaScript's sense; freehand brush and stroke width are `brush_size` or 3; a comment always has a full, non-zero position; a clipping row is combined exactly when it has segments, with one per wire segment |
| AnnotationApi.BareTextRowNeedsTruthyRectX | src/utils/connectors/annotationApi.js:259 | a "text" row without a clipping object is read exactly when its `source_rect_x` is truthy: missing, 0 and "" drop it, while the text "0" keeps it at x = 0 |
| AnnotationApi.Stored | src/utils/connectors/annotationApi.js:206-258 | the backend's echo, assumed: the payload stored under the column names the inbound transform reads, keeping the payload's type, colour and the id it was given |
| AnnotationApi.LinesRoundTrip | src/utils/connectors/annotationApi.js:43-54 | an underline or strike sent and read back keeps its lines point for point and its stroke width |
| AnnotationApi.PointsRoundTrip | src/utils/connectors/annotationApi.js:58-68 | a freehand stroke sent and read back keeps its points, its opacity, and its brush size when it had one |
| AnnotationApi.HighlightRoundTrip | src/utils/connectors/annotationApi.js:22-40 | a highlight sent and read back keeps the rectangles it sent, its opacity and its colour |
| AnnotationApi.CommentRoundTrip | src/utils/connectors/annotationApi.js:70-81 | a comment sent and read back keeps its text, and its position when no coordinate is 0 |
| DrawingTools.ToolState.constructor | src/pages/flipViewPage/hooks/useDrawingTools.js:8-14 | nothing drawing, no freehand, no comment open, no eraser; freehand-with-comment on; colour "#fffb00" and brush 4 |
| DrawingTools.ToolState.ActivateTool | src/pages/flipViewPage/hooks/useDrawingTools.js:20-45 | the eraser flag toggles the eraser, and turning it on clears every drawing switch and the comment, so nothing is interacting; turning it off leaves them; without it the eraser goes off, the drawing switches take the requested values, any of them on closes the comment, and interaction is active exactly when drawing was requested; with no switch requested interaction follows the open comment; never erasing while drawing |
| DrawingTools.ToolState.ToggleEraser | src/pages/flipViewPage/hooks/useDrawingTools.js:48-56 | the eraser flips; turning it on stops drawing and freehand, so interaction is active exactly while a comment is open; turning it off leaves interaction as it was; never erasing while drawing |
| DrawingTools.ToolState.SetBrushSize | src/pages/flipViewPage/hooks/useDrawingTools.js:59-61 | the brush takes the given size |
| DrawingTools.ToolState.SetHighlightColor | src/pages/flipViewPage/hooks/useDrawingTools.js:64-66 | the highlight takes the given colour |
| FlipAnnotations.Flatten | src/pages/flipViewPage/hooks/useAnnotations.js:41-44 | two numbers per fetched point, its x then its y |
| FlipAnnotations.Pairs | src/pages/flipViewPage/hooks/useAnnotations.js:156-163 | one wire point per two numbers, rounding up for an odd count |
| FlipAnnotations.ConvertPoints | src/pages/flipViewPage/hooks/useAnnotations.js:156-163 | the index loop pushes exactly the flat list read two numbers at a time |
| FlipAnnotations.PairsOfFlatten | src/pages/flipViewPage/hooks/useAnnotations.js:41-163 | fetched points flattened and converted back come out as they were fetched |
| FlipAnnotations.Unpair | src/pages/flipViewPage/hooks/useAnnotations.js:156-163 | one viewer point per wire point, an undefined y reading as 0 |
| FlipAnnotations.FlattenOfPairs | src/pages/flipViewPage/hooks/useAnnotations.js:156-163 | an even-length flat list converts with every y defined and flattens back to itself |
| FlipAnnotations.FromFetched | src/pages/flipViewPage/hooks/useAnnotations.js:46-66 | a fetched shape keeps its id and comments, "highlight" becomes "rect", points are flattened, and the stroke width is `stroke_width`, else `strokeWidth`, else 2 |
| FlipAnnotations.LocalAnnotations.constructor | src/pages/flipViewPage/hooks/useAnnotations.js:11 | no page has reported |
| FlipAnnotations.LocalAnnotations.EntryOf | src/pages/flipViewPage/hooks/useAnnotations.js:85 | a page's entry, or an empty one when it never reported |
| FlipAnnotations.LocalAnnotations.AnnotationsChange | src/pages/flipViewPage/hooks/useAnnotations.js:83-95 | the page's entry becomes the report; a report equal to the entry leaves the record identical; no other page changes |
| FlipAnnotations.ItemCandidates | src/pages/flipViewPage/hooks/useAnnotations.js:215-227 | a group offers each of its highlights with the group's comments; a shape offers itself with its own |
| FlipAnnotations.Admit | src/pages/flipViewPage/hooks/useAnnotations.js:165-185 | a shape with an id is sent exactly when the backend and this page's sends do not hold the id, a shape without one exactly when its fingerprint is new; what is sent is recorded |
| FlipAnnotations.KeptNotOnServer | src/pages/flipViewPage/hooks/useAnnotations.js:142-175 | only offered shapes are sent, and none whose id the backend already holds, including ids of highlights inside its groups |
| FlipAnnotations.KeptFresh | src/pages/flipViewPage/hooks/useAnnotations.js:177-185 | a sent shape's id or fingerprint was not already recorded |
| FlipAnnotations.KeptOnce | src/pages/flipViewPage/hooks/useAnnotations.js:137-185 | within a page each id, and each fingerprint of a shape without one, is sent at most once |
| FlipAnnotations.KeptCovers | src/pages/flipViewPage/hooks/useAnnotations.js:165-185 | every offered shape whose id the backend does not hold, or with no id, is sent or matches a shape that was |
| FlipAnnotations.CommentTexts | src/pages/flipViewPage/hooks/useAnnotations.js:203-206 | one text per comment, "" when it has none |
| FlipAnnotations.ToWire | src/pages/flipViewPage/hooks/useAnnotations.js:187-207 | the shape's type and colour, the stroke width or 2; converted points for a freehand, the box for a rectangle or highlight; the comment texts when there are any |
| FlipAnnotations.WireAll | src/pages/flipViewPage/hooks/useAnnotations.js:187-209 | one wire shape per sent shape, in order |
| FlipAnnotations.GroupHighlightsCarryComments | src/pages/flipViewPage/hooks/useAnnotations.js:202-220 | every highlight of a group is sent with the group's comment texts |
| FlipAnnotations.CandidatesAppend | src/pages/flipViewPage/hooks/useAnnotations.js:233-240 | the offers of two lists of items are those of the first followed by those of the second |
| FlipAnnotations.CollectServerIds | src/pages/flipViewPage/hooks/useAnnotations.js:142-153 | the loop collects exactly every truthy item id and the ids of a group's highlights |
| FlipAnnotations.AddShape | src/pages/flipViewPage/hooks/useAnnotations.js:165-210 | an admitted shape is recorded and its wire form pushed; a refused one changes nothing |
| FlipAnnotations.KeptStep | src/pages/flipViewPage/hooks/useAnnotations.js:165-185 | offering the first candidate either sends it and records it, or leaves the rest as they were |
| FlipAnnotations.AddCandidates | src/pages/flipViewPage/hooks/useAnnotations.js:220 | the loop over one item's offers pushes exactly the wire forms of those it sends, and leaves the rest to be sent as from the start |
| FlipAnnotations.AddCandidateAt | src/pages/flipViewPage/hooks/useAnnotations.js:220 | one turn of the loop keeps what has been sent and what remains in step |
| FlipAnnotations.SavePageShapes | src/pages/flipViewPage/hooks/useAnnotations.js:127-240 | a page's shapes are those sent from its annotations and then its pending highlights, against the backend's ids |
| FlipAnnotations.AddItems | src/pages/flipViewPage/hooks/useAnnotations.js:138-240 | the item loop, from an empty record, pushes exactly the wire forms of the shapes sent |
| FlipAnnotations.SavePlan | src/pages/flipViewPage/hooks/useAnnotations.js:98-263 | no payload without a document or with no page; otherwise one payload per page from 1 to the count with new shapes, holding exactly those, in page order, and none for a page with nothing new |
| FlipAnnotations.PlanPages | src/pages/flipViewPage/hooks/useAnnotations.js:125-263 | the page loop plans pages 1 to the count |
| FlipAnnotations.PlannedPages | src/pages/flipViewPage/hooks/useAnnotations.js:125-263 | the planned payloads name pages 1 to n with their new shapes, in page order, every page with new shapes included |
| FlipAnnotations.PlanPage | src/pages/flipViewPage/hooks/useAnnotations.js:243-251 | one page turn keeps the plan for the pages seen so far |
| FlipAnnotations.PlannedSkip | src/pages/flipViewPage/hooks/useAnnotations.js:243-245 | a page with nothing new leaves the plan unchanged |
| FlipAnnotations.PlannedAppend | src/pages/flipViewPage/hooks/useAnnotations.js:247-251 | a page with new shapes is planned after every earlier page |
| FlipAnnotations.NothingNewNoShapes | src/pages/flipViewPage/hooks/useAnnotations.js:172-245 | a page whose offers the backend all holds yields no payload |
| FlipZoom.ClampZoom | src/pages/flipViewPage/hooks/useZoom.js:89-93 | any level forced into [1, 3], a level inside unchanged |
| FlipZoom.PinchZoom | src/pages/flipViewPage/hooks/useZoom.js:170-173 | the reached level is in [1, 3], the start level scaled by the distance ratio when that lies inside, and the start level when the fingers have not moved |
| FlipZoom.PinchInRecentres | src/pages/flipViewPage/hooks/useZoom.js:168-180 | pinching in from a level at or below the default never zooms past the start level and recentres the pan, whatever the pan was |
| FlipZoom.SwipeMirror | src/pages/flipViewPage/hooks/useZoom.js:224-231 | a swipe the other way reports the opposite travel; flipping the vertical travel changes nothing; a swipe is never also a swipe with the axes swapped |
| FlipZoom.SetPointer | src/pages/flipViewPage/hooks/useZoom.js:106-166 | a known pointer keeps its place with its new position and every other entry stays, a new one goes last; ids stay distinct |
| FlipZoom.DeletePointer | src/pages/flipViewPage/hooks/useZoom.js:195 | the pointer is gone and every other pointer stays; ids stay distinct |
| FlipZoom.DeleteCutsEntry | src/pages/flipViewPage/hooks/useZoom.js:195 | deleting a recorded pointer cuts exactly its entry out and keeps the others in order |
| FlipZoom.Centre | src/pages/flipViewPage/hooks/useZoom.js:96 | the midpoint is as far from one pointer as from the other, on both axes |
| FlipZoom.ZoomState.constructor | src/pages/flipViewPage/hooks/useZoom.js:9-20 | unzoomed at level 1, not dragging, centred, no pointer |
| FlipZoom.ZoomState.ZoomIn | src/pages/flipViewPage/hooks/useZoom.js:23-30 | zoomed afterwards; the first step goes to 1.5, later ones up by 0.5 capped at 3; the level stays in [1, 3] |
| FlipZoom.ZoomState.ZoomOut | src/pages/flipViewPage/hooks/useZoom.js:32-43 | re-centred; above 1.5 down by 0.5 but not below 1.5; otherwise level 1, unzoomed and not dragging |
| FlipZoom.ZoomState.ZoomReset | src/pages/flipViewPage/hooks/useZoom.js:45-50 | level 1, unzoomed, centred, not dragging |
| FlipZoom.ZoomState.Wheel | src/pages/flipViewPage/hooks/useZoom.js:79-84 | nothing unless zoomed; scrolling up raises the level by 0.5 up to 3, keeping the pan; scrolling down above 1.5 lowers it by 0.5 down to 1.5 and recentres; at 1.5 or below it returns to level 1, unzoomed, centred and not dragging |
| FlipZoom.ZoomState.MouseDown | src/pages/flipViewPage/hooks/useZoom.js:53-63 | ignored for the eraser; a drag starts from the grab point only when zoomed and neither drawing nor commenting |
| FlipZoom.ZoomState.MouseMove | src/pages/flipViewPage/hooks/useZoom.js:65-73 | while dragging a zoomed page the pan follows the pointer from the grab point; nothing otherwise |
| FlipZoom.ZoomState.MouseUp | src/pages/flipViewPage/hooks/useZoom.js:75-77 | the drag ends |
| FlipZoom.ZoomState.PointerDown | src/pages/flipViewPage/hooks/useZoom.js:98-125 | ignored while drawing, commenting or erasing, nothing changing; otherwise a zoomed page starts a pan (an unzoomed one leaves the drag alone), the pointer is recorded, and a second pointer starts a pinch from the current level and pan and sets zoomed, while any other count leaves the pinch alone |
| FlipZoom.ZoomState.RecordPointer | src/pages/flipViewPage/hooks/useZoom.js:106-119 | the pointer is recorded; with two down the pinch starts from the current level and pan, otherwise the pinch and zoomed flag stay |
| FlipZoom.ZoomState.StartPinch | src/pages/flipViewPage/hooks/useZoom.js:108-116 | the pinch starts from the current distance, level and pan, at the pointers' midpoint, and the page is zoomed |
| FlipZoom.ZoomState.PointerMove | src/pages/flipViewPage/hooks/useZoom.js:163-192 | an unknown pointer changes nothing; with two pointers the level is the pinch level, zoomed exactly above 1, and the pan is the pinch pan; with one, a zoomed drag pans |
| FlipZoom.ZoomState.PointerUp | src/pages/flipViewPage/hooks/useZoom.js:194-203 | the pointer is forgotten, the pinch resets below two pointers and stays otherwise, and the drag ends |
| FlipZoom.ZoomState.TouchStart | src/pages/flipViewPage/hooks/useZoom.js:206-214 | unless drawing, a drag starts from the touch less the pan |
| FlipZoom.ZoomState.TouchEnd | src/pages/flipViewPage/hooks/useZoom.js:221-235 | nothing without a drag; a long horizontal travel is reported as a swipe and the drag stays; any other end stops the drag |
| FlipbookUtils.FloorDiv | src/pages/flipViewPage/utils/flipbookUtils.js:22-35 | `Math.floor` of a quotient: the largest integer not above it |
| FlipbookUtils.FloorMul | src/pages/flipViewPage/utils/flipbookUtils.js:26-39 | `Math.floor` of a product: the largest integer not above it |
| FlipbookUtils.CalculateBookSize | src/pages/flipViewPage/utils/flipbookUtils.js:11-44 | the height never exceeds the window height less 100, and the width never exceeds the starting width |
| FlipbookUtils.BookFitsDeviceClass | src/pages/flipViewPage/utils/flipbookUtils.js:11-53 | on a mobile-class window the book is at most the breakpoint less 100 pixels wide (668 at the default 768), on a desktop one at most 1000 |
| FlipbookUtils.StartWidth | src/pages/flipViewPage/utils/flipbookUtils.js:13-34 | the starting width is at most the window width less 100, and at most 1000 on a desktop |
| FlipbookUtils.FitsUnder | src/pages/flipViewPage/utils/flipbookUtils.js:24-40 | when the height is capped, the width recomputed from the cap is not above the starting width |
| FlipbookUtils.SizeUsesSpreadRatio | src/pages/flipViewPage/utils/flipbookUtils.js:19-43 | a desktop sizes by twice the page ratio, a phone by the ratio itself |
| FlipbookUtils.FlipbookClassList | src/pages/flipViewPage/utils/flipbookUtils.js:60-69 | "flipbook" first; "dragging" exactly while dragging; "zoomedGrab" or "zoomedGrabbing" exactly when zoomed without drawing or commenting, by dragging; "interacting" exactly while interacting |
| FlipbookUtils.FlipbookClasses | src/pages/flipViewPage/utils/flipbookUtils.js:60-71 | the class string splits at its spaces into exactly the class list |
| FlipbookUtils.JoinStartsWithFirst | src/pages/flipViewPage/utils/flipbookUtils.js:70 | a list joined by spaces starts with its first name |
| FlipbookUtils.FormatPageNumber | src/pages/flipViewPage/utils/flipbookUtils.js:146-148 | "current / total": the leading number reads back as the current page, then " / ", then the rest reads back as the total |

## Left out

- DOM and rendering are left out: JSX, Konva and SVG drawing, scrolling, pointer capture and `ResizeObserver`. Measured rectangles, overlay sizes, page visibility, the text selection and its client rectangles are parameters of the handlers that read them.
- pdf.js page loading and rasterisation, the Tesseract worker pool and `recognize`, and canvas cropping are left out. The recogniser's answer, or its failure, is a parameter of `RecognisePage` and `ExtractTextForPage`. `ensureWorkers`, `runOcrOnPage` and `extractTextFromArea` are engine calls and are not modelled. `renderPageToCanvas` is not part of this model.
- The OCR progress interval, hOCR output, OCR line boxes, font metrics and the page metrics record are left out, as is the font scaling of the text layer. They only affect display.
- OcrPipeline.TsvWord: a TSV column that does not parse as an integer reads as 0. The per-word TSV confidence is not kept, because only the text and box are used downstream.
- OcrPipeline.RecognisedWords: the recogniser's per-word confidence and font data are not stated, because nothing downstream reads them.
- OcrPipeline.RealTextLayerExactly: the 50-character threshold counts characters, where JavaScript's `text.length` counts UTF-16 code units. They differ only for characters outside the Basic Multilingual Plane, so a text near the threshold with such characters may be judged differently.
- OcrPipeline.Convert requires a positive page size, because a rendered viewport always has one. The source's division by 0 is not modelled.
- OcrTextLayer.GroupWordsByLines takes the sorted word order as an input: any permutation of the kept words. The source sorts with a tolerance comparator (a difference in `y` above 0.01, else `x`), which is not a strict order, so the sort itself is not proved. The same holds for the rectangle sort in OCR search.
- Network and authentication are left out: axios calls, `saveAnnotation(s)`, `fetchAnnotations`, and the delete and update-comment posts. Backend rows are inputs, and save plans are outputs.
- React state batching, effect ordering, `Promise.allSettled`, rAF batching in the zoom hook, timers, pulse removal, and debounce and throttle are left out. Each handler is modelled as one atomic step on the state it reads.
- The search run-id cancellation is left out, because it only guards against a stale asynchronous search.
- Ids built from `Date.now()` and counters, ISO timestamps and `Math.random()` jitter are parameters. Jitter is constrained to [0, 0.01). `WorkspaceUtils.IdGenerator` models the counters of the id generators.
- `window.prompt` results are optional-string parameters, and `alert` is ignored. The crop mask is modelled as its stop positions, not its CSS gradient string.
- Floating point is not modelled: arithmetic is exact on `real`. `NaN` is modelled only where it matters, in the crop finding below. `toFixed(2)` in wheel zoom is not modelled.
- `getWorkspaceStackPosition` (`src/pages/documentWorkspace/utils.js:59-64`) is not modelled, because nothing in the core calls it.
- localStorage persistence of bookmarks (`src/pages/documentWorkspace/hooks/useBookmarks.js:11-29`) is left out, because it is browser storage. `PageBookmarks.BookmarkSet.constructor` starts empty.
- FreehandLayer.Layer.PointerMove: the pressure reading uses the `pressureEnabled` stored when the stroke began, while the source's move handler reads the current prop. The two differ only if the prop changes in the middle of a stroke.
- HitTest.DistanceSqPointToSegment: the property that the distance never exceeds the squared distance to either endpoint is not proved; nonlinear real arithmetic does not close. `SegmentDistSqAtEndpoints` states the value at the endpoints instead.
- AnnotablePage.Page.MouseUp requires a non-zero stage size, because Konva's stage always has one. Window-relative comment-bubble placement (`updatePortalPosition`) and the image-fit stage sizing are display only and are left out.
- AnnotablePage.Page.CommentChange: the selected index is taken as given. An index past the end leaves the list unchanged, whereas the source throws.
- DocumentWorkspace.WorkspaceController.StartDraggingNote requires the note to have a position, because only positioned notes are rendered and can be grabbed.
- `0` as a JavaScript falsy number is modelled as an absent value wherever the source tests with `\|\|`. Backend columns read through `parseFloat` keep JavaScript truthiness: a non-zero number or any non-empty string, such as `"0"`, is truthy. Booleans and objects in those columns are not modelled.
- AnnotationApi.Stored is an assumed model of the backend, which is not part of this model: it stores a payload and sends it back under the column names `transformAnnotationFromAPI` reads. `LinesRoundTrip`, `PointsRoundTrip`, `HighlightRoundTrip` and `CommentRoundTrip` rest on that assumption.
- DocumentWorkspace.WorkspaceController.AddClipping models the intended call of `addClipToWorkspace`. As written, the dependency arrays at `src/pages/documentWorkspace/hooks/useDocumentWorkspaceController.js:288` and `:1427` read `addClipToWorkspace` before its `const` declaration at `:1969`, so building those callbacks throws a `ReferenceError` (the temporal dead zone). The model assumes the name is bound.
- DocumentWorkspace.WorkspaceController.AddExtractedClip: the same holds for the call of `addClipToWorkspace` at `src/pages/documentWorkspace/hooks/useDocumentWorkspaceController.js:288`.
- DocumentWorkspace.WorkspaceController.CombineSelected uses the corrected combine (`ClippingOps.Combine`, see Findings), not the source's card removal for a stale selection.
- AnnotablePage.Page.CommentChange uses the corrected first-comment edit (`AnnotablePage.EditFirstComment`, see Findings), so an emptied comment list takes a new comment where the source throws.
- AnnotablePage.Page.EditSelectedComment uses the corrected first-comment edit (`AnnotablePage.EditFirstComment`, see Findings).
- WorkspaceSearch.TextLayerExact: lowercasing maps the ASCII, Latin-1, Greek and Cyrillic capitals one for one. Full Unicode case mapping is not modelled: other scripts, and mappings that change the length, such as `'İ'`, are left as they are.
- WorkspaceSearch.OcrLayerExact: lowercasing is the same partial case mapping as for the text layer.
- WorkspaceSearch.LayerExact: lowercasing is the same partial case mapping as for the text layer.
- WorkspaceSearch.Search: lowercasing is the same partial case mapping as for the text layer.
- DocumentWorkspace.WorkspaceController.ApplyLineAnnotation does nothing for an overlay of zero width or height, because real division by 0 is undefined here. The source divides and stores infinite or `NaN` coordinates.
- DocumentWorkspace.LineAnnotationFor makes no annotation for an overlay of zero width or height, for the same reason as ApplyLineAnnotation.
- The `text` that text annotations quote and the `createdAt` time of an annotation are not kept in the viewer's annotation record, because nothing in the core reads them back.
- FlipZoom.ZoomState.PointerMove takes the distance between the two pinch pointers (`Math.hypot`) as a parameter that is not tied to the recorded positions, because real numbers here have no square root.
- FlipZoom.ZoomState.PointerDown, FlipZoom.ZoomState.RecordPointer and FlipZoom.ZoomState.StartPinch take the same pinch distance as an unconstrained parameter, for the same reason.
- StableSort.SortBy: stability (equal keys keep their input order, as JavaScript's `Array.prototype.sort` guarantees) is not stated; the contract gives key order and the permutation only.
- `parseInt` without a radix, as at `src/utils/connectors/annotationApi.js:16`, reads a `0x` prefix as hexadecimal. `JsText.ParseInt` reads decimal digits only, so a page list starting with `0x` is not modelled.
- Fingerprints in the flip viewer's save are structured values, not the printed string. Two shapes have equal fingerprints exactly when the printed fields agree.
- The flip-book shell (turn.js and jQuery), `getFlipbookStyle`, `createPlaceholderImage`, `isValidPDFUrl`, and the test and performance scaffolding are left out, because they are not part of the modelled core.

## Findings

| source | as written | input that shows it | evidently intended | confidence | as-written member | corrected member |
|---|---|---|---|---|---|---|
| src/pages/documentWorkspace/hooks/useDocumentWorkspaceController.js:531-537 | the comment branch of the crop reads `y + height` and `x + width`, but a page note made with the comment tool carries a position `{x, y}` without width or height (lines 1160-1170) | one page note placed with the comment tool, in highlight view | a missing size counts as 0, so the note's own point bounds the crop | not executed | HighlightCrop.NoteWithoutSizeBreaksCropAsWritten | HighlightCrop.NoteWithoutSizeBoundsCrop |
| src/pages/documentWorkspace/hooks/useDocumentWorkspaceController.js:1444-1502 | with two or more selected ids, the cards of every selected id are removed even when fewer than two ids still name a clipping, so no combined clipping is made | selection `[stale, a]`, where `stale` is the id of a clipping already split apart, and clipping `a` has a card | the workspace is changed only when the combined clipping is made | not executed | ClippingOps.StaleSelectionDropsCardAsWritten | ClippingOps.CombineKeepsSurvivorsCards |
| src/components/pieces/annotablePage/AnnotablePage.js:396-456 | erasing one highlight of a group sets its comments to `[]`; the edit then checks only for absence and writes to `comments[0]`, which does not exist | a comment edit while the selected annotation is a group whose comment list is `[]`, which erasing one of its highlights leaves (:454-455). No interface path is known that keeps such a group selected: the eraser's click is a document mousedown, which clears the selection (:246-252); an emptied group shows no comment icon (:673); and shapes do not open comments (:568-570). The corrected edit is a hardening | an empty list is treated like an absent one | not executed; no reaching path known | AnnotablePage.ErasedGroupCommentEditFailsAsWritten | AnnotablePage.EditFirstComment |
