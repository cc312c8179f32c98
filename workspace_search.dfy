/**
 * The document search: every occurrence of the lowercased term in a page's
 * text-layer text (the span texts run together) and in the text of the
 * page's OCR words (each non-empty word followed by one space unless it is
 * the last word, so an empty last word leaves a trailing space), each turned
 * into the rectangles
 * to paint; OCR rectangles on one line are merged when they touch. Also the
 * next / previous navigation over the results.
 */
module WorkspaceSearch {
  import opened Wrappers
  import opened JsText
  import opened WorkspaceTypes
  import opened WorkspaceUtils

  // ---------------------------------------------------------------- occurrences

  /** The start of every occurrence of `term` in `text` at or after `from`, found by resuming one past each hit. */
  function OccurrencesFrom(text: string, term: string, from: nat): seq<nat>
    decreases |text| + 1 - from
  {
    match IndexOfFrom(text, term, from)
    case None => []
    case Some(k) => [k] + OccurrencesFrom(text, term, k + 1)
  }

  predicate StrictlyAscending(s: seq<nat>) { forall i, j :: 0 <= i < j < |s| ==> s[i] < s[j] }

  /**
   * Resuming one past each hit reports exactly the occurrences, overlapping
   * ones included, in ascending order.
   */
  lemma {:induction false} OccurrencesExact(text: string, term: string, from: nat)
    ensures forall k :: k in OccurrencesFrom(text, term, from) <==> from <= k && OccursAt(text, term, k)
    ensures StrictlyAscending(OccurrencesFrom(text, term, from))
    ensures forall k :: k in OccurrencesFrom(text, term, from) ==> from <= k
  {
    OccurrencesAre(text, term, from);
    OccurrencesAscend(text, term, from);
  }

  lemma {:induction false} OccurrencesAre(text: string, term: string, from: nat)
    ensures forall k :: k in OccurrencesFrom(text, term, from) <==> from <= k && OccursAt(text, term, k)
    decreases |text| + 1 - from
  {
    match IndexOfFrom(text, term, from)
    case None =>
    case Some(k) =>
      OccurrencesAre(text, term, k + 1);
  }

  lemma {:induction false} OccurrencesAscend(text: string, term: string, from: nat)
    ensures StrictlyAscending(OccurrencesFrom(text, term, from))
    decreases |text| + 1 - from
  {
    match IndexOfFrom(text, term, from)
    case None =>
    case Some(k) =>
      OccurrencesAscend(text, term, k + 1);
      OccurrencesAre(text, term, k + 1);
      AscendingCons(k, OccurrencesFrom(text, term, k + 1));
  }

  lemma AscendingCons(k: nat, rest: seq<nat>)
    requires StrictlyAscending(rest) && forall x :: x in rest ==> k < x
    ensures StrictlyAscending([k] + rest)
  {
    var all := [k] + rest;
    forall i, j | 0 <= i < j < |all|
      ensures all[i] < all[j]
    {
      assert all[j] == rest[j - 1];
      if i > 0 {
        assert all[i] == rest[i - 1];
      } else {
        assert rest[j - 1] in rest;
      }
    }
  }

  lemma OccurrencesStep(text: string, term: string, from: nat, k: nat)
    requires IndexOfFrom(text, term, from) == Some(k)
    ensures OccurrencesFrom(text, term, from) == [k] + OccurrencesFrom(text, term, k + 1)
  {
  }

  /** The scan stops when no hit is left or the term no longer fits. */
  lemma OccurrencesEnd(text: string, term: string, from: nat)
    requires IndexOfFrom(text, term, from).None? || from > |text| - |term|
    ensures OccurrencesFrom(text, term, from) == []
  {
  }

  // ---------------------------------------------------------------- text layer

  /** A non-empty span's place in the page text. */
  datatype SpanRange = SpanRange(span: nat, start: nat, end: nat)

  /** The page text: the span texts run together. */
  function FullText(spans: seq<string>): string
  {
    if |spans| == 0 then "" else FullText(spans[..|spans| - 1]) + spans[|spans| - 1]
  }

  /** The ranges of the non-empty spans, in span order. */
  function Ranges(spans: seq<string>): seq<SpanRange>
  {
    if |spans| == 0 then []
    else
      var n := |spans| - 1;
      var prev := Ranges(spans[..n]);
      if spans[n] == "" then prev else prev + [SpanRange(n, |FullText(spans[..n])|, |FullText(spans)|)]
  }

  /** Every range names a non-empty span and points at exactly that span's text. */
  lemma {:induction false} RangesLocateSpans(spans: seq<string>)
    ensures forall r :: r in Ranges(spans) ==>
              r.span < |spans| && r.start < r.end <= |FullText(spans)| &&
              FullText(spans)[r.start..r.end] == spans[r.span]
  {
    if |spans| > 0 {
      var n := |spans| - 1;
      RangesLocateSpans(spans[..n]);
      var t := FullText(spans[..n]);
      assert FullText(spans) == t + spans[n];
      forall r | r in Ranges(spans)
        ensures r.span < |spans| && r.start < r.end <= |FullText(spans)| && FullText(spans)[r.start..r.end] == spans[r.span]
      {
        if r in Ranges(spans[..n]) {
          assert spans[..n][r.span] == spans[r.span];
          assert FullText(spans)[r.start..r.end] == t[r.start..r.end];
        } else {
          assert r == SpanRange(n, |t|, |FullText(spans)|);
          assert FullText(spans)[|t|..] == spans[n];
        }
      }
    }
  }

  function Fraction(a: real, b: real): real
    requires b != 0.0
  {
    a / b
  }

  /** A client rectangle on the page overlay, as a clamped fraction of the overlay. */
  function SearchRect(r: ClientRect, overlay: ClientRect): (s: Rect)
    requires overlay.width != 0.0 && overlay.height != 0.0
    ensures 0.0 <= s.x <= 1.0 && 0.0 <= s.y <= 1.0
    ensures 0.002 <= s.width <= 1.0 && 0.003 <= s.height <= 1.0
  {
    Rect(Clamp(Fraction(r.left - overlay.left, overlay.width), 0.0, 1.0),
         Clamp(Fraction(r.top - overlay.top, overlay.height), 0.0, 1.0),
         Clamp(Fraction(r.width, overlay.width), 0.002, 1.0),
         Clamp(Fraction(r.height, overlay.height), 0.003, 1.0))
  }

  /** The client rectangles with a positive size, as search rectangles. */
  function SearchRects(rs: seq<ClientRect>, overlay: ClientRect): (out: seq<Rect>)
    requires overlay.width != 0.0 && overlay.height != 0.0
    ensures |out| <= |rs|
    ensures forall r :: r in out <==> exists c :: c in rs && c.width > 0.0 && c.height > 0.0 && r == SearchRect(c, overlay)
  {
    if |rs| == 0 then []
    else
      (if rs[0].width > 0.0 && rs[0].height > 0.0 then [SearchRect(rs[0], overlay)] else [])
      + SearchRects(rs[1..], overlay)
  }

  /**
   * The DOM measurement of a piece of a span: the client rectangles of the
   * characters `localStart..localEnd` of span `span` on the page (empty when
   * the span holds no text node).
   */
  type Measure = (nat, nat, nat) -> seq<ClientRect>

  /** The rectangles of the match `[found, matchEnd)`: those of every piece of a span it overlaps, in span order. */
  function MatchRects(ranges: seq<SpanRange>, found: nat, matchEnd: nat, measure: Measure, overlay: ClientRect): seq<Rect>
    requires overlay.width != 0.0 && overlay.height != 0.0
  {
    if |ranges| == 0 then []
    else
      var r := ranges[0];
      var own :=
        if r.end <= found || r.start >= matchEnd then []
        else
          var lo := if r.start >= found then r.start else found;
          var hi := if r.end <= matchEnd then r.end else matchEnd;
          if lo >= hi then [] else SearchRects(measure(r.span, lo - r.start, hi - r.start), overlay);
      own + MatchRects(ranges[1..], found, matchEnd, measure, overlay)
  }

  /** Page numbers are positive; the id of a match is its layer's prefix, its page and its offset. */
  function MatchId(prefix: string, page: int, found: nat): string
  {
    prefix + (if page >= 0 then NatToString(page) else "-" + NatToString(-page)) + "-" + NatToString(found)
  }

  /** The rectangles to paint for the match at each offset (empty when there are none). */
  type RectsOf = nat -> seq<Rect>

  /** The match at offset `o`, if it has a rectangle to paint. */
  function MatchAt(prefix: string, page: int, o: nat, rectsOf: RectsOf): seq<SearchMatch>
  {
    if |rectsOf(o)| > 0 then [SearchMatch(MatchId(prefix, page, o), page, rectsOf(o))] else []
  }

  /** What the scan keeps for the hit at each offset: its match, or nothing. */
  type MatchOf = nat -> seq<SearchMatch>

  function MatchOfRects(prefix: string, page: int, rectsOf: RectsOf): MatchOf
  {
    (o: nat) => MatchAt(prefix, page, o, rectsOf)
  }

  /** What the scan keeps for each offset, in the order of the offsets. */
  function Collect(offsets: seq<nat>, matchOf: MatchOf): seq<SearchMatch>
  {
    if |offsets| == 0 then []
    else Collect(offsets[..|offsets| - 1], matchOf) + matchOf(offsets[|offsets| - 1])
  }

  lemma CollectSnoc(offsets: seq<nat>, o: nat, matchOf: MatchOf)
    ensures Collect(offsets + [o], matchOf) == Collect(offsets, matchOf) + matchOf(o)
  {
    assert (offsets + [o])[..|offsets|] == offsets;
  }

  /** The collected matches are exactly those kept for some offset. */
  lemma {:induction false} CollectExact(offsets: seq<nat>, matchOf: MatchOf)
    ensures forall m :: m in Collect(offsets, matchOf) <==> exists o :: o in offsets && m in matchOf(o)
    decreases |offsets|
  {
    if |offsets| > 0 {
      var init := offsets[..|offsets| - 1];
      var last := offsets[|offsets| - 1];
      CollectExact(init, matchOf);
      assert offsets == init + [last];
      assert forall o :: o in offsets <==> o == last || o in init;
    }
  }

  /**
   * A match is kept for offset `o` exactly when `o` has rectangles to paint,
   * and it carries them.
   */
  lemma MatchOfRectsExact(prefix: string, page: int, rectsOf: RectsOf, o: nat, m: SearchMatch)
    ensures m in MatchOfRects(prefix, page, rectsOf)(o) <==>
              |rectsOf(o)| > 0 && m == SearchMatch(MatchId(prefix, page, o), page, rectsOf(o))
  {
  }

  lemma ScanStep(lower: string, term: string, from: nat, k: nat, offsets: seq<nat>)
    requires IndexOfFrom(lower, term, from) == Some(k)
    requires offsets + OccurrencesFrom(lower, term, from) == OccurrencesFrom(lower, term, 0)
    ensures (offsets + [k]) + OccurrencesFrom(lower, term, k + 1) == OccurrencesFrom(lower, term, 0)
  {
    OccurrencesStep(lower, term, from, k);
    assert (offsets + [k]) + OccurrencesFrom(lower, term, k + 1) == offsets + ([k] + OccurrencesFrom(lower, term, k + 1));
  }

  /** The scan so far has reported `offsets`, and resuming at `from` reports the rest. */
  predicate ScannedTo(lower: string, term: string, offsets: seq<nat>, from: nat)
  {
    offsets + OccurrencesFrom(lower, term, from) == OccurrencesFrom(lower, term, 0)
  }

  /** The scan of a lowercased page text: resume one past each hit, and keep what `matchOf` makes of it. */
  method ScanMatches(lower: string, term: string, matchOf: MatchOf) returns (matches: seq<SearchMatch>)
    ensures matches == Collect(OccurrencesFrom(lower, term, 0), matchOf)
  {
    matches := [];
    var searchIndex: nat := 0;
    ghost var offsets: seq<nat> := [];
    assert ScannedTo(lower, term, offsets, searchIndex);
    while searchIndex + |term| <= |lower|
      invariant ScannedTo(lower, term, offsets, searchIndex)
      invariant matches == Collect(offsets, matchOf)
      decreases |lower| + 1 - searchIndex
    {
      var found := FindNext(lower, term, searchIndex, offsets, matchOf);
      if found.None? {
        ScanDone(lower, term, offsets, searchIndex);
        return;
      }
      var foundIndex := found.value;
      offsets := offsets + [foundIndex];
      matches := matches + matchOf(foundIndex);
      searchIndex := foundIndex + 1;
    }
    OccurrencesEnd(lower, term, searchIndex);
    ScanDone(lower, term, offsets, searchIndex);
  }

  /** With nothing left to report, the offsets seen are all the occurrences. */
  lemma ScanDone(lower: string, term: string, offsets: seq<nat>, from: nat)
    requires ScannedTo(lower, term, offsets, from) && OccurrencesFrom(lower, term, from) == []
    ensures offsets == OccurrencesFrom(lower, term, 0)
  {
    assert offsets + [] == offsets;
  }

  /** One `indexOf` of the scan, with what it adds to the occurrences seen so far. */
  method FindNext(lower: string, term: string, searchIndex: nat, ghost offsets: seq<nat>, matchOf: MatchOf)
    returns (found: Option<nat>)
    requires ScannedTo(lower, term, offsets, searchIndex)
    ensures found.None? ==> OccurrencesFrom(lower, term, searchIndex) == []
    ensures found.Some? ==> searchIndex <= found.value && found.value + |term| <= |lower|
    ensures found.Some? ==> ScannedTo(lower, term, offsets + [found.value], found.value + 1)
    ensures found.Some? ==> Collect(offsets + [found.value], matchOf) == Collect(offsets, matchOf) + matchOf(found.value)
  {
    found := IndexOfFrom(lower, term, searchIndex);
    if found.None? {
      OccurrencesEnd(lower, term, searchIndex);
    } else {
      ScanStep(lower, term, searchIndex, found.value, offsets);
      CollectSnoc(offsets, found.value, matchOf);
    }
  }

  const TEXT_PREFIX: string := "search-text-"
  const OCR_PREFIX: string := "search-ocr-"

  /** The text-layer rectangles of the match at each offset. */
  function TextRectsOf(ranges: seq<SpanRange>, termLength: nat, measure: Measure, overlay: ClientRect): RectsOf
    requires overlay.width != 0.0 && overlay.height != 0.0
  {
    (o: nat) => MatchRects(ranges, o, o + termLength, measure, overlay)
  }

  /** The text-layer matches of a page: none without spans or without text. */
  function TextLayerMatches(page: int, spans: seq<string>, term: string, measure: Measure, overlay: ClientRect): seq<SearchMatch>
    requires overlay.width != 0.0 && overlay.height != 0.0
  {
    var lower := ToLower(FullText(spans));
    if |spans| == 0 || lower == "" then []
    else Collect(OccurrencesFrom(lower, term, 0), MatchOfRects(TEXT_PREFIX, page, TextRectsOf(Ranges(spans), |term|, measure, overlay)))
  }

  /** The forEach over the spans: run the texts together and note each non-empty span's range. */
  method LayOutSpans(spans: seq<string>) returns (fullText: string, ranges: seq<SpanRange>)
    ensures fullText == FullText(spans) && ranges == Ranges(spans)
  {
    fullText := "";
    ranges := [];
    var i := 0;
    while i < |spans|
      invariant 0 <= i <= |spans|
      invariant fullText == FullText(spans[..i]) && ranges == Ranges(spans[..i])
    {
      assert spans[..i + 1][..i] == spans[..i];
      var str := spans[i];
      if |str| != 0 {
        var start := |fullText|;
        fullText := fullText + str;
        ranges := ranges + [SpanRange(i, start, |fullText|)];
      } else {
        fullText := fullText + str;
      }
      i := i + 1;
    }
    assert spans[..i] == spans;
  }

  /**
   * The text-layer part of `handleSearch` for one page: lay the spans out,
   * lowercase the page text and scan it.
   */
  method SearchTextLayer(page: int, spans: seq<string>, term: string, measure: Measure, overlay: ClientRect)
    returns (matches: seq<SearchMatch>)
    requires overlay.width != 0.0 && overlay.height != 0.0
    ensures matches == TextLayerMatches(page, spans, term, measure, overlay)
  {
    matches := [];
    if |spans| == 0 {
      return;
    }
    var fullText, ranges := LayOutSpans(spans);
    var lower := ToLower(fullText);
    if lower == "" {
      return;
    }
    matches := ScanMatches(lower, term, MatchOfRects(TEXT_PREFIX, page, TextRectsOf(ranges, |term|, measure, overlay)));
  }

  // ---------------------------------------------------------------- OCR layer

  datatype BBox = BBox(x0: real, y0: real, x1: real, y1: real)

  /** An OCR word: its text ("" when absent) and its page-normalised box. */
  datatype Word = Word(text: string, bbox: Option<BBox>)

  /** One character of the OCR character index; a joining space has `charIndex` -1 and the preceding word's index. */
  datatype CharInfo = CharInfo(ch: char, charIndex: int, wordIndex: nat)

  function WordChars(text: string, w: nat): (r: seq<CharInfo>)
    ensures |r| == |text|
    ensures forall i :: 0 <= i < |text| ==> r[i] == CharInfo(text[i], i, w)
  {
    if |text| == 0 then [] else WordChars(text[..|text| - 1], w) + [CharInfo(text[|text| - 1], |text| - 1, w)]
  }

  /** The characters contributed by word `w`: its letters, then a space unless it is the last word. */
  function WordEntry(words: seq<Word>, w: nat): seq<CharInfo>
    requires w < |words|
  {
    if words[w].text == "" then []
    else WordChars(words[w].text, w) + (if w < |words| - 1 then [CharInfo(' ', -1, w)] else [])
  }

  /** The character index of the words before `n`. */
  function CharIndexUpTo(words: seq<Word>, n: nat): seq<CharInfo>
    requires n <= |words|
  {
    if n == 0 then [] else CharIndexUpTo(words, n - 1) + WordEntry(words, n - 1)
  }

  function CharIndex(words: seq<Word>): seq<CharInfo>
  {
    CharIndexUpTo(words, |words|)
  }

  /** Each entry of the character index names its word and, for a letter, its place in the word. */
  predicate EntryFaithful(words: seq<Word>, c: CharInfo)
  {
    c.wordIndex < |words| && words[c.wordIndex].text != "" &&
    (if c.charIndex >= 0
     then c.charIndex < |words[c.wordIndex].text| && c.ch == words[c.wordIndex].text[c.charIndex]
     else c.charIndex == -1 && c.ch == ' ')
  }

  lemma WordEntryFaithful(words: seq<Word>, w: nat)
    requires w < |words|
    ensures forall k :: 0 <= k < |WordEntry(words, w)| ==>
              EntryFaithful(words, WordEntry(words, w)[k]) && WordEntry(words, w)[k].wordIndex == w
  {
  }

  /**
   * Every entry of the character index is faithful to the words, and the
   * entries come in word order.
   */
  lemma CharIndexFaithful(words: seq<Word>, n: nat)
    requires n <= |words|
    ensures forall k :: 0 <= k < |CharIndexUpTo(words, n)| ==>
              EntryFaithful(words, CharIndexUpTo(words, n)[k]) && CharIndexUpTo(words, n)[k].wordIndex < n
    ensures forall i, j :: 0 <= i < j < |CharIndexUpTo(words, n)| ==>
              CharIndexUpTo(words, n)[i].wordIndex <= CharIndexUpTo(words, n)[j].wordIndex
  {
    CharIndexEntries(words, n);
    CharIndexInWordOrder(words, n);
  }

  lemma {:induction false} CharIndexEntries(words: seq<Word>, n: nat)
    requires n <= |words|
    ensures forall k :: 0 <= k < |CharIndexUpTo(words, n)| ==>
              EntryFaithful(words, CharIndexUpTo(words, n)[k]) && CharIndexUpTo(words, n)[k].wordIndex < n
  {
    if n > 0 {
      var m: nat := n - 1;
      CharIndexEntries(words, m);
      WordEntryFaithful(words, m);
      var init: seq<CharInfo> := CharIndexUpTo(words, m);
      var e: seq<CharInfo> := WordEntry(words, m);
      assert CharIndexUpTo(words, n) == init + e;
      forall k | 0 <= k < |init + e|
        ensures EntryFaithful(words, (init + e)[k]) && (init + e)[k].wordIndex < n
      {
        if k >= |init| {
          assert (init + e)[k] == e[k - |init|];
        }
      }
    }
  }

  lemma {:induction false} CharIndexInWordOrder(words: seq<Word>, n: nat)
    requires n <= |words|
    ensures forall i, j :: 0 <= i < j < |CharIndexUpTo(words, n)| ==>
              CharIndexUpTo(words, n)[i].wordIndex <= CharIndexUpTo(words, n)[j].wordIndex
  {
    if n > 0 {
      var m: nat := n - 1;
      CharIndexInWordOrder(words, m);
      CharIndexEntries(words, m);
      WordEntryFaithful(words, m);
      var init: seq<CharInfo> := CharIndexUpTo(words, m);
      var e: seq<CharInfo> := WordEntry(words, m);
      assert CharIndexUpTo(words, n) == init + e;
      forall i: int, j: int | 0 <= i < j < |init + e|
        ensures (init + e)[i].wordIndex <= (init + e)[j].wordIndex
      {
        if j >= |init| {
          assert (init + e)[j] == e[j - |init|];
          if i >= |init| {
            assert (init + e)[i] == e[i - |init|];
          } else {
            assert (init + e)[i] == init[i];
          }
        }
      }
    }
  }

  /** The inner loop over a word's letters. */
  method AppendWordChars(chars: seq<CharInfo>, wordText: string, w: nat) returns (out: seq<CharInfo>)
    ensures out == chars + WordChars(wordText, w)
  {
    out := chars;
    var i := 0;
    while i < |wordText|
      invariant 0 <= i <= |wordText|
      invariant out == chars + WordChars(wordText, w)[..i]
    {
      assert WordChars(wordText, w)[..i + 1] == WordChars(wordText, w)[..i] + [CharInfo(wordText[i], i, w)];
      out := out + [CharInfo(wordText[i], i, w)];
      i := i + 1;
    }
    assert WordChars(wordText, w)[..i] == WordChars(wordText, w);
  }

  /** The character-index loop of `handleSearch`: each non-empty word's letters, then a joining space unless it is the last word. */
  method BuildCharIndex(words: seq<Word>) returns (chars: seq<CharInfo>)
    ensures chars == CharIndex(words)
  {
    chars := [];
    var w: nat := 0;
    while w < |words|
      invariant 0 <= w <= |words|
      invariant chars == CharIndexUpTo(words, w)
    {
      chars := AppendWordEntry(chars, words, w);
      w := w + 1;
    }
  }

  /** One pass of the character-index loop: word `w`'s entry appended. */
  method AppendWordEntry(chars: seq<CharInfo>, words: seq<Word>, w: nat) returns (out: seq<CharInfo>)
    requires w < |words|
    ensures out == chars + WordEntry(words, w)
  {
    var wordText := words[w].text;
    if wordText == "" {
      assert chars + [] == chars;
      return chars;
    }
    out := AppendWordChars(chars, wordText, w);
    if w < |words| - 1 {
      out := out + [CharInfo(' ', -1, w)];
    } else {
      assert out + [] == out;
    }
  }

  /** The searchable OCR text: the characters of the index. */
  function IndexText(chars: seq<CharInfo>): (t: string)
    ensures |t| == |chars| && forall k :: 0 <= k < |chars| ==> t[k] == chars[k].ch
  {
    if |chars| == 0 then "" else [chars[0].ch] + IndexText(chars[1..])
  }

  /** The characters of one word inside a match. */
  datatype WordGroup = WordGroup(wordIndex: nat, charIndices: seq<int>)

  /** Add a character to its word's group, opening the group on the word's first character (a `Map` keeps insertion order). */
  function AddToGroups(groups: seq<WordGroup>, c: CharInfo): (r: seq<WordGroup>)
    ensures |r| == |groups| || |r| == |groups| + 1
  {
    if |groups| == 0 then [WordGroup(c.wordIndex, [c.charIndex])]
    else if groups[0].wordIndex == c.wordIndex then [groups[0].(charIndices := groups[0].charIndices + [c.charIndex])] + groups[1..]
    else [groups[0]] + AddToGroups(groups[1..], c)
  }

  /** The word groups of the characters `lo..hi` of the index, skipping characters whose word has no box. */
  function GroupRange(chars: seq<CharInfo>, words: seq<Word>, lo: nat, hi: nat): seq<WordGroup>
    requires hi <= |chars|
    decreases hi
  {
    if hi <= lo then []
    else
      var prev := GroupRange(chars, words, lo, hi - 1);
      var c := chars[hi - 1];
      if c.wordIndex < |words| && words[c.wordIndex].bbox.Some? then AddToGroups(prev, c) else prev
  }

  function MinInt(s: seq<int>): (m: int)
    requires |s| > 0
    ensures forall i :: 0 <= i < |s| ==> m <= s[i]
    ensures m in s
  {
    if |s| == 1 then s[0]
    else
      var m := MinInt(s[1..]);
      assert forall i :: 1 <= i < |s| ==> s[i] == s[1..][i - 1];
      if s[0] <= m then s[0] else m
  }

  function MaxInt(s: seq<int>): (m: int)
    requires |s| > 0
    ensures forall i :: 0 <= i < |s| ==> m >= s[i]
    ensures m in s
  {
    if |s| == 1 then s[0]
    else
      var m := MaxInt(s[1..]);
      assert forall i :: 1 <= i < |s| ==> s[i] == s[1..][i - 1];
      if s[0] >= m then s[0] else m
  }

  function Letters(s: seq<int>): (r: seq<int>)
    ensures forall x :: x in r <==> x in s && x >= 0
  {
    if |s| == 0 then []
    else
      assert forall x :: x in s <==> x == s[0] || x in s[1..];
      (if s[0] >= 0 then [s[0]] else []) + Letters(s[1..])
  }

  /**
   * The rectangle of a word group: the slice of the word's box from its first
   * to its last matched letter, assuming letters of equal width; none when the
   * group holds only the joining space.
   */
  function GroupRect(g: WordGroup, words: seq<Word>): (r: Option<Rect>)
    ensures r.Some? ==> 0.0 <= r.value.x <= 1.0 && 0.0 <= r.value.y <= 1.0
    ensures r.Some? ==> 0.001 <= r.value.width <= 1.0 && 0.001 <= r.value.height <= 1.0
  {
    if g.wordIndex >= |words| then None
    else
      var word := words[g.wordIndex];
      if word.text == "" || word.bbox.None? then None
      else
        var valid := Letters(g.charIndices);
        if |valid| == 0 then None
        else
          var b := word.bbox.value;
          var n := |word.text| as real;
          var startRatio := MinInt(valid) as real / n;
          var endRatio := (MaxInt(valid) + 1) as real / n;
          var charWidth := b.x1 - b.x0;
          var x0 := b.x0 + charWidth * startRatio;
          var x1 := b.x0 + charWidth * endRatio;
          Some(Rect(Clamp(x0, 0.0, 1.0), Clamp(b.y0, 0.0, 1.0), Clamp(x1 - x0, 0.001, 1.0), Clamp(b.y1 - b.y0, 0.001, 1.0)))
  }

  function GroupRects(groups: seq<WordGroup>, words: seq<Word>): seq<Rect>
  {
    if |groups| == 0 then []
    else
      (match GroupRect(groups[0], words) case None => [] case Some(r) => [r]) + GroupRects(groups[1..], words)
  }

  // ---------------------------------------------------------------- merging

  const SAME_LINE_TOLERANCE: real := 0.01
  const ADJACENT_GAP: real := 0.002

  /** `rect` is on the line of `current` and starts at most 0.002 after its right edge. */
  predicate Mergeable(current: Rect, rect: Rect)
  {
    Abs(rect.y - current.y) < SAME_LINE_TOLERANCE && rect.x - (current.x + current.width) <= ADJACENT_GAP
  }

  /** `current` widened to reach `rect`'s right edge, and as high as the higher of the two. */
  function Extend(current: Rect, rect: Rect): (r: Rect)
    ensures r.x == current.x && r.y == current.y
    ensures r.width >= current.width && r.height >= current.height && r.height >= rect.height
    ensures r.x + r.width >= rect.x + rect.width
  {
    current.(width := Max(current.width, rect.x + rect.width - current.x), height := Max(current.height, rect.height))
  }

  /** The merged rectangles, the current one being `current` and `rest` still to come. */
  function MergeFrom(current: Rect, rest: seq<Rect>): (m: seq<Rect>)
    ensures |m| >= 1 && |m| <= |rest| + 1
    ensures m[0].x == current.x && m[0].y == current.y && m[0].width >= current.width && m[0].height >= current.height
    decreases |rest|
  {
    if |rest| == 0 then [current]
    else if Mergeable(current, rest[0]) then MergeFrom(Extend(current, rest[0]), rest[1..])
    else [current] + MergeFrom(rest[0], rest[1..])
  }

  /** The merge loop of the OCR search. */
  method MergeRects(rects: seq<Rect>) returns (merged: seq<Rect>)
    requires |rects| > 0
    ensures merged == MergeFrom(rects[0], rects[1..])
  {
    merged := [];
    var current := rects[0];
    var i := 1;
    while i < |rects|
      invariant 1 <= i <= |rects|
      invariant merged + MergeFrom(current, rects[i..]) == MergeFrom(rects[0], rects[1..])
    {
      var rect := rects[i];
      assert rects[i..][0] == rect && rects[i..][1..] == rects[i + 1..];
      if Mergeable(current, rect) {
        current := Extend(current, rect);
      } else {
        assert merged + MergeFrom(current, rects[i..]) == (merged + [current]) + MergeFrom(rect, rects[i + 1..]);
        merged := merged + [current];
        current := rect;
      }
      i := i + 1;
    }
    assert rects[i..] == [];
    merged := merged + [current];
  }

  /** No two neighbouring rectangles of `m` could be merged. */
  predicate Apart(m: seq<Rect>)
  {
    forall k :: 0 <= k < |m| - 1 ==> !Mergeable(m[k], m[k + 1])
  }

  /** Some rectangle of `m` reaches `r`'s right edge and is at least as high. */
  predicate CoveredBy(r: Rect, m: seq<Rect>)
  {
    exists k :: 0 <= k < |m| && m[k].x + m[k].width >= r.x + r.width && m[k].height >= r.height
  }

  /**
   * After merging no two neighbouring rectangles could be merged: each new
   * rectangle starts exactly where the next one is off the line or more than
   * 0.002 to the right of the current one's right edge.
   */
  lemma {:induction false} MergedNeighboursApart(current: Rect, rest: seq<Rect>)
    ensures Apart(MergeFrom(current, rest))
    decreases |rest|
  {
    if |rest| > 0 {
      if Mergeable(current, rest[0]) {
        MergedNeighboursApart(Extend(current, rest[0]), rest[1..]);
      } else {
        MergedNeighboursApart(rest[0], rest[1..]);
        var tail := MergeFrom(rest[0], rest[1..]);
        var m := [current] + tail;
        assert MergeFrom(current, rest) == m;
        forall k | 0 <= k < |m| - 1
          ensures !Mergeable(m[k], m[k + 1])
        {
          if k == 0 {
            assert m[0] == current && m[1] == tail[0];
            assert tail[0].x == rest[0].x && tail[0].y == rest[0].y;
          } else {
            assert m[k] == tail[k - 1] && m[k + 1] == tail[k];
          }
        }
      }
    }
  }

  /** Merging loses no rectangle: each one's right edge and height are reached by some merged rectangle. */
  lemma {:induction false} MergedCoverInputs(current: Rect, rest: seq<Rect>)
    ensures forall r :: r in rest ==> CoveredBy(r, MergeFrom(current, rest))
    decreases |rest|
  {
    if |rest| > 0 {
      var m := MergeFrom(current, rest);
      if Mergeable(current, rest[0]) {
        var e := Extend(current, rest[0]);
        MergedCoverInputs(e, rest[1..]);
        assert m == MergeFrom(e, rest[1..]);
        forall r | r in rest
          ensures CoveredBy(r, m)
        {
          if r != rest[0] {
            assert r in rest[1..];
          } else {
            assert m[0].x + m[0].width >= r.x + r.width && m[0].height >= r.height;
          }
        }
      } else {
        MergedCoverInputs(rest[0], rest[1..]);
        var tail := MergeFrom(rest[0], rest[1..]);
        assert m == [current] + tail;
        forall r | r in rest
          ensures CoveredBy(r, m)
        {
          if r == rest[0] {
            assert m[1] == tail[0];
            assert m[1].x + m[1].width >= r.x + r.width && m[1].height >= r.height;
          } else {
            assert r in rest[1..];
            var k :| 0 <= k < |tail| && tail[k].x + tail[k].width >= r.x + r.width && tail[k].height >= r.height;
            assert m[k + 1] == tail[k];
          }
        }
      }
    }
  }

  /**
   * The rectangles of an OCR match (empty when it has none). The sort by
   * line with a tolerance is the engine's: `sortRects` stands for whatever
   * order it produces.
   */
  function OcrMatchRects(chars: seq<CharInfo>, words: seq<Word>, found: nat, matchEnd: nat,
                         sortRects: seq<Rect> -> seq<Rect>): seq<Rect>
  {
    var hi := if matchEnd <= |chars| then matchEnd else |chars|;
    var rects := GroupRects(GroupRange(chars, words, found, hi), words);
    if |rects| == 0 then []
    else
      var sorted := sortRects(rects);
      if |sorted| == 0 then [] else MergeFrom(sorted[0], sorted[1..])
  }

  /** The per-match part of the OCR loop: group, measure, sort and merge. */
  method OcrRectsAt(chars: seq<CharInfo>, words: seq<Word>, found: nat, matchEnd: nat,
                    sortRects: seq<Rect> -> seq<Rect>) returns (merged: seq<Rect>)
    ensures merged == OcrMatchRects(chars, words, found, matchEnd, sortRects)
  {
    var hi := if matchEnd <= |chars| then matchEnd else |chars|;
    var rects := GroupRects(GroupRange(chars, words, found, hi), words);
    merged := [];
    if |rects| > 0 {
      var sorted := sortRects(rects);
      if |sorted| > 0 {
        merged := MergeRects(sorted);
      }
    }
  }

  /** The OCR rectangles of the match at each offset. */
  function OcrRectsOf(chars: seq<CharInfo>, words: seq<Word>, termLength: nat, sortRects: seq<Rect> -> seq<Rect>): RectsOf
  {
    (o: nat) => OcrMatchRects(chars, words, o, o + termLength, sortRects)
  }

  /** The OCR result of a page. */
  datatype OcrPage = OcrPage(isPdfText: bool, words: seq<Word>)

  /** The OCR matches of a page: none without a usable OCR result, for a PDF with a text layer, or without text. */
  function OcrLayerMatches(page: int, ocr: Option<OcrPage>, term: string, sortRects: seq<Rect> -> seq<Rect>): seq<SearchMatch>
  {
    if ocr.None? || ocr.value.isPdfText || |ocr.value.words| == 0 then []
    else
      var chars := CharIndex(ocr.value.words);
      var lower := ToLower(IndexText(chars));
      if lower == "" then []
      else Collect(OccurrencesFrom(lower, term, 0), MatchOfRects(OCR_PREFIX, page, OcrRectsOf(chars, ocr.value.words, |term|, sortRects)))
  }

  /** The OCR part of `handleSearch` for one page. */
  method SearchOcrLayer(page: int, ocr: Option<OcrPage>, term: string, sortRects: seq<Rect> -> seq<Rect>)
    returns (matches: seq<SearchMatch>)
    ensures matches == OcrLayerMatches(page, ocr, term, sortRects)
  {
    matches := [];
    if ocr.None? || ocr.value.isPdfText || |ocr.value.words| == 0 {
      return;
    }
    var words := ocr.value.words;
    var chars := BuildCharIndex(words);
    var lower := ToLower(IndexText(chars));
    if lower == "" {
      return;
    }
    matches := ScanMatches(lower, term, MatchOfRects(OCR_PREFIX, page, OcrRectsOf(chars, words, |term|, sortRects)));
  }

  // ---------------------------------------------------------------- the whole search

  /**
   * What the search sees of a page: its overlay box (`None` when the page or
   * its overlay is not mounted), its text-layer span texts (`None` without a
   * text layer) and its OCR result.
   */
  datatype PageView = PageView(overlay: Option<ClientRect>, spans: Option<seq<string>>, ocr: Option<OcrPage>)

  predicate Mounted(view: PageView)
  {
    view.overlay.Some? && view.overlay.value.width != 0.0 && view.overlay.value.height != 0.0
  }

  /** The matches of one page: the text-layer ones, then the OCR ones; none for an unmounted or zero-sized overlay. */
  function PageMatches(page: int, view: PageView, term: string, measure: Measure,
                       sortRects: seq<Rect> -> seq<Rect>): seq<SearchMatch>
  {
    if !Mounted(view) then []
    else
      (if view.spans.Some? then TextLayerMatches(page, view.spans.value, term, measure, view.overlay.value) else [])
      + OcrLayerMatches(page, view.ocr, term, sortRects)
  }

  /** The matches of page `n` (none when the page has no view). */
  function PageMatchesAt(views: seq<PageView>, n: nat, term: string, measures: int -> Measure,
                         sortRects: seq<Rect> -> seq<Rect>): seq<SearchMatch>
  {
    if 1 <= n <= |views| then PageMatches(n, views[n - 1], term, measures(n), sortRects) else []
  }

  /** The matches of pages `1..n`, page by page. */
  function MatchesUpTo(views: seq<PageView>, n: nat, term: string, measures: int -> Measure,
                       sortRects: seq<Rect> -> seq<Rect>): seq<SearchMatch>
  {
    if n == 0 then []
    else MatchesUpTo(views, n - 1, term, measures, sortRects) + PageMatchesAt(views, n, term, measures, sortRects)
  }

  /** `handleSearch`: no results for a blank term or an empty document; the first result is active when there is one. */
  function SearchResults(searchTerm: string, numPages: nat, views: seq<PageView>,
                         measures: int -> Measure, sortRects: seq<Rect> -> seq<Rect>): (r: (seq<SearchMatch>, int))
  {
    var term := ToLower(Trim(searchTerm));
    if term == "" || numPages == 0 then ([], -1)
    else
      var matches := MatchesUpTo(views, numPages, term, measures, sortRects);
      (matches, if |matches| > 0 then 0 else -1)
  }

  /** The matches of one mounted page. */
  method SearchPage(page: int, view: PageView, term: string, measure: Measure, sortRects: seq<Rect> -> seq<Rect>)
    returns (matches: seq<SearchMatch>)
    ensures matches == PageMatches(page, view, term, measure, sortRects)
  {
    matches := [];
    if !Mounted(view) {
      return;
    }
    var textMatches: seq<SearchMatch> := [];
    if view.spans.Some? {
      textMatches := SearchTextLayer(page, view.spans.value, term, measure, view.overlay.value);
    }
    var ocrMatches := SearchOcrLayer(page, view.ocr, term, sortRects);
    matches := textMatches + ocrMatches;
  }

  /** `handleSearch`: the normalised term, then the page loop; the first result becomes active. */
  method Search(searchTerm: string, numPages: nat, views: seq<PageView>,
                measures: int -> Measure, sortRects: seq<Rect> -> seq<Rect>)
    returns (results: seq<SearchMatch>, activeIndex: int)
    ensures results == SearchResults(searchTerm, numPages, views, measures, sortRects).0
    ensures activeIndex == SearchResults(searchTerm, numPages, views, measures, sortRects).1
  {
    var term := ToLower(Trim(searchTerm));
    if term == "" || numPages == 0 {
      return [], -1;
    }
    results := SearchPages(numPages, views, term, measures, sortRects);
    activeIndex := if |results| > 0 then 0 else -1;
  }

  /** The page loop of `handleSearch`: pages 1 to `numPages` in order, a page without a view finding nothing. */
  method SearchPages(numPages: nat, views: seq<PageView>, term: string,
                     measures: int -> Measure, sortRects: seq<Rect> -> seq<Rect>)
    returns (matches: seq<SearchMatch>)
    ensures matches == MatchesUpTo(views, numPages, term, measures, sortRects)
  {
    matches := [];
    var done: nat := 0;
    while done < numPages
      invariant done <= numPages
      invariant matches == MatchesUpTo(views, done, term, measures, sortRects)
    {
      var pageMatches := SearchPageAt(views, done + 1, term, measures, sortRects);
      matches := matches + pageMatches;
      done := done + 1;
    }
  }

  /** One pass of the page loop: page `n`'s matches, none when it has no view. */
  method SearchPageAt(views: seq<PageView>, n: nat, term: string, measures: int -> Measure,
                      sortRects: seq<Rect> -> seq<Rect>)
    returns (pageMatches: seq<SearchMatch>)
    ensures pageMatches == PageMatchesAt(views, n, term, measures, sortRects)
  {
    pageMatches := [];
    if 1 <= n <= |views| {
      pageMatches := SearchPage(n, views[n - 1], term, measures(n), sortRects);
    }
  }

  /**
   * A blank term or an empty document finds nothing and leaves no result
   * active; otherwise the first result is active exactly when there is one.
   */
  lemma SearchOutcome(searchTerm: string, numPages: nat, views: seq<PageView>,
                      measures: int -> Measure, sortRects: seq<Rect> -> seq<Rect>)
    ensures var (results, active) := SearchResults(searchTerm, numPages, views, measures, sortRects);
            (AllSpace(searchTerm) || numPages == 0 ==> results == [] && active == -1) &&
            (active == 0 <==> |results| > 0) && (active == -1 <==> |results| == 0)
  {
    TrimBlank(searchTerm);
  }

  /** The active index names a result, or is -1. */
  lemma SearchActiveInRange(searchTerm: string, numPages: nat, views: seq<PageView>,
                            measures: int -> Measure, sortRects: seq<Rect> -> seq<Rect>)
    ensures -1 <= SearchResults(searchTerm, numPages, views, measures, sortRects).1
               < |SearchResults(searchTerm, numPages, views, measures, sortRects).0|
  {
    SearchOutcome(searchTerm, numPages, views, measures, sortRects);
  }

  lemma TrimBlank(s: string)
    ensures AllSpace(s) ==> ToLower(Trim(s)) == ""
  {
  }

  /** What a layer finds in `lower`: one match per occurrence of the term that has a rectangle to paint. */
  ghost predicate FoundAt(m: SearchMatch, prefix: string, page: int, lower: string, term: string, rectsOf: RectsOf)
  {
    exists o: nat :: OccursAt(lower, term, o) && |rectsOf(o)| > 0 && m == SearchMatch(MatchId(prefix, page, o), page, rectsOf(o))
  }

  /**
   * A layer's matches are exactly the occurrences of the term in its
   * lowercased text, overlapping ones included, that have a rectangle to paint.
   */
  lemma LayerExact(prefix: string, page: int, lower: string, term: string, rectsOf: RectsOf)
    ensures forall m :: m in Collect(OccurrencesFrom(lower, term, 0), MatchOfRects(prefix, page, rectsOf)) <==>
              FoundAt(m, prefix, page, lower, term, rectsOf)
    ensures forall m :: m in Collect(OccurrencesFrom(lower, term, 0), MatchOfRects(prefix, page, rectsOf)) ==>
              m.pageNumber == page && |m.rects| > 0
  {
    var offsets := OccurrencesFrom(lower, term, 0);
    var matchOf := MatchOfRects(prefix, page, rectsOf);
    OccurrencesExact(lower, term, 0);
    CollectExact(offsets, matchOf);
    forall m
      ensures m in Collect(offsets, matchOf) <==> FoundAt(m, prefix, page, lower, term, rectsOf)
    {
      if m in Collect(offsets, matchOf) {
        var o :| o in offsets && m in matchOf(o);
        MatchOfRectsExact(prefix, page, rectsOf, o, m);
      }
      if FoundAt(m, prefix, page, lower, term, rectsOf) {
        var o: nat :| OccursAt(lower, term, o) && |rectsOf(o)| > 0 && m == SearchMatch(MatchId(prefix, page, o), page, rectsOf(o));
        MatchOfRectsExact(prefix, page, rectsOf, o, m);
        assert o in offsets && m in matchOf(o);
      }
    }
  }

  /** The text-layer matches of a mounted page with spans are exactly the occurrences of the term in its lowercased text that have a rectangle. */
  lemma TextLayerExact(page: int, spans: seq<string>, term: string, measure: Measure, overlay: ClientRect)
    requires overlay.width != 0.0 && overlay.height != 0.0
    requires |spans| > 0 && term != ""
    ensures forall m :: m in TextLayerMatches(page, spans, term, measure, overlay) <==>
              FoundAt(m, TEXT_PREFIX, page, ToLower(FullText(spans)), term, TextRectsOf(Ranges(spans), |term|, measure, overlay))
  {
    var lower := ToLower(FullText(spans));
    LayerExact(TEXT_PREFIX, page, lower, term, TextRectsOf(Ranges(spans), |term|, measure, overlay));
  }

  /** The OCR matches of a page with OCR words are exactly the occurrences of the term in its lowercased OCR text that have a rectangle. */
  lemma OcrLayerExact(page: int, ocr: OcrPage, term: string, sortRects: seq<Rect> -> seq<Rect>)
    requires !ocr.isPdfText && |ocr.words| > 0 && term != ""
    ensures var chars := CharIndex(ocr.words);
            forall m :: m in OcrLayerMatches(page, Some(ocr), term, sortRects) <==>
              FoundAt(m, OCR_PREFIX, page, ToLower(IndexText(chars)), term, OcrRectsOf(chars, ocr.words, |term|, sortRects))
  {
    var chars := CharIndex(ocr.words);
    LayerExact(OCR_PREFIX, page, ToLower(IndexText(chars)), term, OcrRectsOf(chars, ocr.words, |term|, sortRects));
  }

  predicate PageOrdered(ms: seq<SearchMatch>)
  {
    forall i, j :: 0 <= i < j < |ms| ==> ms[i].pageNumber <= ms[j].pageNumber
  }

  /** Every match of page `n` is on page `n`. */
  lemma PageMatchesAtOnPage(views: seq<PageView>, n: nat, term: string,
                            measures: int -> Measure, sortRects: seq<Rect> -> seq<Rect>)
    ensures forall m :: m in PageMatchesAt(views, n, term, measures, sortRects) ==> m.pageNumber == n && |m.rects| > 0
  {
    if 1 <= n <= |views| {
      PageMatchesOnPage(n, views[n - 1], term, measures(n), sortRects);
    }
  }

  /** Every result lies on a page of the document, and results come page by page. */
  lemma {:induction false} ResultsOnPages(views: seq<PageView>, n: nat, term: string,
                                          measures: int -> Measure, sortRects: seq<Rect> -> seq<Rect>)
    ensures forall m :: m in MatchesUpTo(views, n, term, measures, sortRects) ==> 1 <= m.pageNumber <= n && |m.rects| > 0
    ensures PageOrdered(MatchesUpTo(views, n, term, measures, sortRects))
  {
    if n > 0 {
      ResultsOnPages(views, n - 1, term, measures, sortRects);
      var init := MatchesUpTo(views, n - 1, term, measures, sortRects);
      var last := PageMatchesAt(views, n, term, measures, sortRects);
      PageMatchesAtOnPage(views, n, term, measures, sortRects);
      ConcatPages(init, last, n);
    }
  }

  /** Matches of pages before `n` followed by matches of page `n` are ordered by page. */
  lemma ConcatPages(init: seq<SearchMatch>, last: seq<SearchMatch>, n: nat)
    requires n > 0
    requires forall m :: m in init ==> 1 <= m.pageNumber <= n - 1 && |m.rects| > 0
    requires PageOrdered(init)
    requires forall m :: m in last ==> m.pageNumber == n && |m.rects| > 0
    ensures forall m :: m in init + last ==> 1 <= m.pageNumber <= n && |m.rects| > 0
    ensures PageOrdered(init + last)
  {
    var ms := init + last;
    forall i, j | 0 <= i < j < |ms|
      ensures ms[i].pageNumber <= ms[j].pageNumber
    {
      if j >= |init| {
        assert ms[j] == last[j - |init|] && ms[j] in last;
        if i < |init| {
          assert ms[i] == init[i] && init[i] in init;
        } else {
          assert ms[i] == last[i - |init|] && ms[i] in last;
        }
      } else {
        assert ms[i] == init[i] && ms[j] == init[j];
      }
    }
  }

  lemma PageMatchesOnPage(page: int, view: PageView, term: string, measure: Measure, sortRects: seq<Rect> -> seq<Rect>)
    ensures forall m :: m in PageMatches(page, view, term, measure, sortRects) ==> m.pageNumber == page && |m.rects| > 0
  {
    if Mounted(view) {
      if view.spans.Some? {
        var spans := view.spans.value;
        var lower := ToLower(FullText(spans));
        if |spans| != 0 && lower != "" {
          LayerExact(TEXT_PREFIX, page, lower, term, TextRectsOf(Ranges(spans), |term|, measure, view.overlay.value));
        }
      }
      var ocr := view.ocr;
      if !(ocr.None? || ocr.value.isPdfText || |ocr.value.words| == 0) {
        var chars := CharIndex(ocr.value.words);
        var lower := ToLower(IndexText(chars));
        LayerExact(OCR_PREFIX, page, lower, term, OcrRectsOf(chars, ocr.value.words, |term|, sortRects));
      }
    }
  }

  // ---------------------------------------------------------------- navigation

  /** `goToNextSearchResult`: from no active result to the first, otherwise one on, wrapping at the end. */
  function NextIndex(prev: int, n: nat): (r: int)
    requires n > 0
  {
    if prev < 0 then 0 else (prev + 1) % n
  }

  /** `goToPreviousSearchResult`: from the first result (or none) to the last, otherwise one back. */
  function PreviousIndex(prev: int, n: nat): (r: int)
    requires n > 0
  {
    if prev <= 0 then n - 1 else prev - 1
  }

  /** Both steps always land on a result, whatever the active index was before. */
  lemma NavigationInRange(prev: int, n: nat)
    requires n > 0
    ensures 0 <= NextIndex(prev, n) < n
    ensures prev < n ==> 0 <= PreviousIndex(prev, n) < n
    ensures prev < 0 ==> NextIndex(prev, n) == 0 && PreviousIndex(prev, n) == n - 1
  {
  }

  /** On a valid index, next and previous undo each other; going on from the last wraps to the first. */
  lemma NavigationInverse(i: int, n: nat)
    requires n > 0 && 0 <= i < n
    ensures PreviousIndex(NextIndex(i, n), n) == i
    ensures NextIndex(PreviousIndex(i, n), n) == i
    ensures i == n - 1 ==> NextIndex(i, n) == 0
  {
    if i < n - 1 {
      assert (i + 1) % n == i + 1;
    } else {
      assert (i + 1) % n == 0;
    }
  }

  /** The page the active result asks the viewer to show, if an index is active. */
  function ActiveResultPage(results: seq<SearchMatch>, active: int): (page: Option<int>)
    ensures page.Some? <==> 0 <= active < |results|
    ensures page.Some? ==> exists m :: m in results && m.pageNumber == page.value
  {
    if 0 <= active < |results| then Some(results[active].pageNumber) else None
  }
}
