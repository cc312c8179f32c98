/**
 * Text extraction for the workspace's pages: a page whose PDF text layer
 * looks like real text keeps it; any other page is rendered and recognised.
 * Recognised word boxes are fractions of the rendered page. The PDF reader,
 * the renderer and the recogniser are passed in as their results.
 */
module OcrPipeline {
  import opened Wrappers
  import opened JsText
  import opened WorkspaceUtils

  const WORKER_COUNT: nat := 3
  const MIN_TEXT_LENGTH: nat := 50
  const MIN_LETTERS: nat := 10
  const MIN_LETTER_SHARE: real := 0.25
  const MIN_WORDS: nat := 8
  const LONG_WORD: nat := 5
  const NATIVE_CONFIDENCE: int := 100
  const DEFAULT_CONFIDENCE: int := 90

  // ---------------------------------------------------------------- native text test

  /** `replace(/\s+/g, ' ')`: every run of white space becomes one space. */
  function CollapseSpaces(s: string): (r: string)
    ensures |r| <= |s| && (|r| == 0 <==> |s| == 0)
    ensures |r| > 0 ==> (IsSpace(r[0]) <==> IsSpace(s[0]))
    ensures SingleSpaced(r)
    decreases |s|
  {
    if |s| == 0 then ""
    else if IsSpace(s[0]) then " " + CollapseSpaces(TrimStart(s[1..]))
    else [s[0]] + CollapseSpaces(s[1..])
  }

  /** The page text `hasRealTextLayer` judges: the items joined by spaces, space runs collapsed, trimmed. */
  function PageText(items: seq<string>): (r: string)
    ensures |r| <= |Join(items, " ")|
  {
    Trim(CollapseSpaces(Join(items, " ")))
  }

  /** Every white-space character is a plain space, and no two are adjacent. */
  predicate SingleSpaced(s: string)
  {
    forall k :: 0 <= k < |s| && IsSpace(s[k]) ==> s[k] == ' ' && (k + 1 == |s| || !IsSpace(s[k + 1]))
  }

  /** The characters that are not white space, in order. */
  function NonSpaces(s: string): string
  {
    if |s| == 0 then "" else (if IsSpace(s[0]) then "" else [s[0]]) + NonSpaces(s[1..])
  }

  /** The number of white-space runs; `afterSpace` says the text follows white space. */
  function SpaceRuns(s: string, afterSpace: bool): nat
  {
    if |s| == 0 then 0
    else (if IsSpace(s[0]) && !afterSpace then 1 else 0) + SpaceRuns(s[1..], IsSpace(s[0]))
  }

  lemma {:induction false} NonSpacesAppend(a: string, b: string)
    ensures NonSpaces(a + b) == NonSpaces(a) + NonSpaces(b)
  {
    if |a| > 0 {
      assert (a + b)[1..] == a[1..] + b;
      NonSpacesAppend(a[1..], b);
    } else {
      assert a + b == b;
    }
  }

  lemma {:induction false} AllSpaceHasNoNonSpaces(s: string)
    requires AllSpace(s)
    ensures NonSpaces(s) == ""
  {
    if |s| > 0 {
      assert IsSpace(s[0]);
      AllSpaceHasNoNonSpaces(s[1..]);
    }
  }

  /** Dropping leading white space keeps every other character and every run after the first. */
  lemma {:induction false} TrimStartKeeps(s: string)
    ensures NonSpaces(TrimStart(s)) == NonSpaces(s)
    ensures SpaceRuns(TrimStart(s), true) == SpaceRuns(s, true)
  {
    if |s| > 0 && IsSpace(s[0]) {
      TrimStartKeeps(s[1..]);
    }
  }

  /** Collapsing keeps the non-space characters in their order. */
  lemma {:induction false} CollapseKeepsNonSpaces(s: string)
    ensures NonSpaces(CollapseSpaces(s)) == NonSpaces(s)
    decreases |s|
  {
    if |s| > 0 {
      var r := CollapseSpaces(s);
      if IsSpace(s[0]) {
        var t := TrimStart(s[1..]);
        TrimStartKeeps(s[1..]);
        CollapseKeepsNonSpaces(t);
        assert r[1..] == CollapseSpaces(t);
      } else {
        CollapseKeepsNonSpaces(s[1..]);
        assert r[1..] == CollapseSpaces(s[1..]);
      }
    }
  }

  /** Collapsing turns each white-space run into exactly one space: the number of runs stays. */
  lemma {:induction false} CollapseKeepsRuns(s: string)
    ensures SpaceRuns(CollapseSpaces(s), false) == SpaceRuns(s, false)
    decreases |s|
  {
    if |s| > 0 {
      var r := CollapseSpaces(s);
      if IsSpace(s[0]) {
        var t := TrimStart(s[1..]);
        TrimStartKeeps(s[1..]);
        CollapseKeepsRuns(t);
        var c := CollapseSpaces(t);
        assert r[1..] == c;
        assert SpaceRuns(c, true) == SpaceRuns(c, false) by {
          if |c| > 0 { assert !IsSpace(c[0]); }
        }
        assert SpaceRuns(t, true) == SpaceRuns(t, false) by {
          if |t| > 0 { assert !IsSpace(t[0]); }
        }
      } else {
        CollapseKeepsRuns(s[1..]);
        assert r[1..] == CollapseSpaces(s[1..]);
      }
    }
  }

  /** Collapsing leaves a text alone exactly when it is already single-spaced. */
  lemma {:induction false} CollapseFixesSingleSpaced(s: string)
    ensures CollapseSpaces(s) == s <==> SingleSpaced(s)
    decreases |s|
  {
    if |s| > 0 && SingleSpaced(s) {
      assert SingleSpaced(s[1..]) by {
        forall k | 0 <= k < |s[1..]| && IsSpace(s[1..][k])
          ensures s[1..][k] == ' ' && (k + 1 == |s[1..]| || !IsSpace(s[1..][k + 1]))
        {
          assert s[1..][k] == s[k + 1];
        }
      }
      CollapseFixesSingleSpaced(s[1..]);
      if IsSpace(s[0]) {
        assert |s| == 1 || !IsSpace(s[1]);
        assert TrimStart(s[1..]) == s[1..];
      }
    }
  }

  lemma {:induction false} SingleSpacedSlice(s: string, i: nat, j: nat)
    requires i <= j <= |s| && SingleSpaced(s)
    ensures SingleSpaced(s[i..j])
  {
    forall k | 0 <= k < j - i && IsSpace(s[i..j][k])
      ensures s[i..j][k] == ' ' && (k + 1 == j - i || !IsSpace(s[i..j][k + 1]))
    {
      assert s[i..j][k] == s[i + k];
      if k + 1 < j - i {
        assert s[i..j][k + 1] == s[i + k + 1];
      }
    }
  }

  /**
   * The judged page text is normalised: single-spaced, with no white space at
   * either end, and with every other character of the joined items in order.
   */
  lemma PageTextNormalised(items: seq<string>)
    ensures var t := PageText(items);
            SingleSpaced(t) && (|t| > 0 ==> !IsSpace(t[0]) && !IsSpace(t[|t| - 1]))
            && NonSpaces(t) == NonSpaces(Join(items, " "))
  {
    NormalisedText(Join(items, " "));
  }

  lemma NormalisedText(s: string)
    ensures var t := Trim(CollapseSpaces(s));
            SingleSpaced(t) && NonSpaces(t) == NonSpaces(s)
  {
    CollapseKeepsNonSpaces(s);
    TrimKeeps(CollapseSpaces(s));
  }

  /** Trimming keeps the non-space characters and single spacing. */
  lemma TrimKeeps(c: string)
    ensures NonSpaces(Trim(c)) == NonSpaces(c)
    ensures SingleSpaced(c) ==> SingleSpaced(Trim(c))
  {
    TrimStartKeeps(c);
    TrimEndKeepsNonSpaces(TrimStart(c));
    if SingleSpaced(c) {
      var i, j := TrimIsSlice(c);
      SingleSpacedSlice(c, i, j);
    }
  }

  lemma TrimEndKeepsNonSpaces(a: string)
    ensures NonSpaces(TrimEnd(a)) == NonSpaces(a)
  {
    var t := TrimEnd(a);
    assert a == t + a[|t|..];
    NonSpacesAppend(t, a[|t|..]);
    AllSpaceHasNoNonSpaces(a[|t|..]);
  }

  function LetterCount(s: string): (n: nat)
    ensures n <= |s|
  {
    if |s| == 0 then 0 else (if IsAsciiLetter(s[0]) then 1 else 0) + LetterCount(s[1..])
  }

  predicate HasLongWord(words: seq<string>)
  {
    exists k :: 0 <= k < |words| && |words[k]| > LONG_WORD
  }

  /**
   * `hasRealTextLayer`: at least 50 characters, at least 10 ASCII letters
   * making up at least a quarter of the text, at least 8 words, one of them
   * longer than 5 characters. A page whose text cannot be read (`None`) has
   * none.
   */
  predicate HasRealTextLayer(items: Option<seq<string>>)
  {
    if items.None? then false
    else
      var raw := PageText(items.value);
      if |raw| < MIN_TEXT_LENGTH then false
      else
        var letters := LetterCount(raw);
        if letters < MIN_LETTERS || TooFewLetters(letters, |raw|) then false
        else
          var words := Split(raw, ' ');
          if |words| < MIN_WORDS then false
          else HasLongWord(words)
  }

  /** The native-text test, both ways: the thresholds all met, and nothing for an unreadable page. */
  lemma RealTextLayerExactly(items: Option<seq<string>>)
    ensures items.None? ==> !HasRealTextLayer(items)
    ensures items.Some? ==>
              var t := PageText(items.value);
              HasRealTextLayer(items) <==>
                |t| >= MIN_TEXT_LENGTH && LetterCount(t) >= MIN_LETTERS && 4 * LetterCount(t) >= |t|
                && |Split(t, ' ')| >= MIN_WORDS && HasLongWord(Split(t, ' '))
  {
  }

  /** `letters / length < 0.25`, on a non-empty text: fewer than a quarter of the characters are letters. */
  predicate TooFewLetters(letters: nat, len: nat)
    requires len > 0
    ensures TooFewLetters(letters, len) <==> 4 * letters < len
  {
    ShareBound(letters, len);
    (letters as real) / (len as real) < MIN_LETTER_SHARE
  }

  lemma ShareBound(letters: nat, len: nat)
    requires len > 0
    ensures (letters as real) / (len as real) < MIN_LETTER_SHARE <==> 4 * letters < len
  {
    var q := (letters as real) / (len as real);
    assert q * (len as real) == letters as real;
    if q < 0.25 {
      assert q * (len as real) < 0.25 * (len as real);
    } else {
      assert q * (len as real) >= 0.25 * (len as real);
    }
  }

  /** A page with fewer than 50 characters of text in all is never taken as native text. */
  lemma ShortTextIsNotNative(items: seq<string>)
    requires |Join(items, " ")| < MIN_TEXT_LENGTH
    ensures !HasRealTextLayer(Some(items))
  {
  }

  /** A page whose text has no ASCII letter, such as a page of figures, is never taken as native text. */
  lemma {:induction false} LetterlessTextIsNotNative(items: seq<string>)
    requires forall k :: 0 <= k < |items| ==> forall j :: 0 <= j < |items[k]| ==> !IsAsciiLetter(items[k][j])
    ensures !HasRealTextLayer(Some(items))
  {
    var joined := Join(items, " ");
    JoinHasNoLetter(items);
    CollapseKeepsNoLetter(joined);
    var c := CollapseSpaces(joined);
    NoLetterCountZero(Trim(c), c);
  }

  predicate NoLetter(s: string) { forall j :: 0 <= j < |s| ==> !IsAsciiLetter(s[j]) }

  lemma {:induction false} JoinHasNoLetter(items: seq<string>)
    requires forall k :: 0 <= k < |items| ==> NoLetter(items[k])
    ensures NoLetter(Join(items, " "))
  {
    if |items| > 1 {
      JoinHasNoLetter(items[1..]);
      var rest := Join(items[1..], " ");
      assert Join(items, " ") == items[0] + " " + rest;
      assert NoLetter(items[0]);
    }
  }

  lemma {:induction false} CollapseKeepsNoLetter(s: string)
    requires NoLetter(s)
    ensures NoLetter(CollapseSpaces(s))
    decreases |s|
  {
    if |s| > 0 {
      if IsSpace(s[0]) {
        var t := TrimStart(s[1..]);
        assert NoLetter(t) by {
          forall k | 0 <= k < |t| ensures !IsAsciiLetter(t[k]) {
            assert t[k] == s[1..][|s[1..]| - |t| + k];
          }
        }
        CollapseKeepsNoLetter(t);
      } else {
        CollapseKeepsNoLetter(s[1..]);
      }
    }
  }

  lemma NoLetterCountZero(t: string, s: string)
    requires NoLetter(s) && t == Trim(s)
    ensures LetterCount(t) == 0
  {
    var i, j := TrimIsSlice(s);
    assert NoLetter(t) by {
      forall k | 0 <= k < |t| ensures !IsAsciiLetter(t[k]) {
        assert t[k] == s[i + k];
      }
    }
    NoLetterCount(t);
  }

  lemma TrimIsSlice(s: string) returns (i: nat, j: nat)
    ensures i <= j <= |s| && Trim(s) == s[i..j]
  {
    var a := TrimStart(s);
    var r := TrimEnd(a);
    i, j := |s| - |a|, |s| - |a| + |r|;
    assert a == s[i..];
    assert r == a[..|r|];
    assert s[i..][..|r|] == s[i..j];
  }

  lemma {:induction false} NoLetterCount(t: string)
    requires NoLetter(t)
    ensures LetterCount(t) == 0
  {
    if |t| > 0 {
      assert !IsAsciiLetter(t[0]);
      NoLetterCount(t[1..]);
    }
  }

  // ---------------------------------------------------------------- boxes

  /** A word box; in a result, fractions of the rendered page with the origin at the top left. */
  datatype BBox = BBox(x0: real, x1: real, y0: real, y1: real)

  /** A word: its text, its rounded confidence (`None` where not modelled), its box (`None` when missing). */
  datatype OcrWord = OcrWord(text: string, confidence: Option<int>, bbox: Option<BBox>)

  /** `Math.max(0, Math.min(1, v))` */
  function UnitClamp(v: real): (r: real)
    ensures 0.0 <= r <= 1.0
    ensures 0.0 <= v <= 1.0 ==> r == v
    ensures v < 0.0 ==> r == 0.0
    ensures v > 1.0 ==> r == 1.0
  {
    Max(0.0, Min(1.0, v))
  }

  /** `convert`: each coordinate over the rendered page size, clamped into [0, 1]. */
  function Convert(b: BBox, pageWidth: real, pageHeight: real): (r: BBox)
    requires pageWidth > 0.0 && pageHeight > 0.0
    ensures 0.0 <= r.x0 <= 1.0 && 0.0 <= r.x1 <= 1.0 && 0.0 <= r.y0 <= 1.0 && 0.0 <= r.y1 <= 1.0
    ensures 0.0 <= b.x0 <= pageWidth ==> r.x0 * pageWidth == b.x0
    ensures 0.0 <= b.y0 <= pageHeight ==> r.y0 * pageHeight == b.y0
    ensures 0.0 <= b.x1 <= pageWidth ==> r.x1 * pageWidth == b.x1
    ensures 0.0 <= b.y1 <= pageHeight ==> r.y1 * pageHeight == b.y1
  {
    DivWithin(b.x0, pageWidth);
    DivWithin(b.y0, pageHeight);
    DivWithin(b.x1, pageWidth);
    DivWithin(b.y1, pageHeight);
    BBox(UnitClamp(b.x0 / pageWidth), UnitClamp(b.x1 / pageWidth), UnitClamp(b.y0 / pageHeight), UnitClamp(b.y1 / pageHeight))
  }

  lemma DivWithin(v: real, size: real)
    requires size > 0.0
    ensures 0.0 <= v <= size ==> 0.0 <= v / size <= 1.0
  {
    if 0.0 <= v <= size {
      DivMono(v, size, size);
      DivMono(0.0, v, size);
    }
  }

  lemma DivMono(a: real, b: real, size: real)
    requires size > 0.0 && a <= b
    ensures a / size <= b / size
  {
    assert b / size - a / size == (b - a) / size;
  }

  /** A box that is the right way round stays the right way round after conversion. */
  lemma ConvertKeepsOrder(b: BBox, pageWidth: real, pageHeight: real)
    requires pageWidth > 0.0 && pageHeight > 0.0
    requires b.x0 <= b.x1 && b.y0 <= b.y1
    ensures Convert(b, pageWidth, pageHeight).x0 <= Convert(b, pageWidth, pageHeight).x1
    ensures Convert(b, pageWidth, pageHeight).y0 <= Convert(b, pageWidth, pageHeight).y1
  {
    DivMono(b.x0, b.x1, pageWidth);
    DivMono(b.y0, b.y1, pageHeight);
  }

  // ---------------------------------------------------------------- TSV fallback

  /** `parseInt(cols[k] || 0)`: a missing or empty column is 0; a column that does not parse reads as 0 here. */
  function ColumnInt(cols: seq<string>, k: nat): int
  {
    if k < |cols| && cols[k] != "" then OrElse(ParseInt(cols[k]), 0) else 0
  }

  /** The 0-based column `k`, `None` past the end of the row. */
  function Column(cols: seq<string>, k: nat): Option<string>
  {
    if k < |cols| then Some(cols[k]) else None
  }

  /** A TSV row is a word when its level is "5", its confidence is not "-1", and it has text. */
  predicate IsWordRow(cols: seq<string>)
  {
    Column(cols, 0) == Some("5") && Column(cols, 10) != Some("-1") && Column(cols, 11).Some? && cols[11] != ""
  }

  /** The word of one TSV row: text from column 11, the box from columns 6–9 (left, top, width, height). */
  function TsvWord(cols: seq<string>, pageWidth: real, pageHeight: real): (w: OcrWord)
    requires pageWidth > 0.0 && pageHeight > 0.0 && IsWordRow(cols)
    ensures w.text == cols[11] && w.text != "" && w.bbox == Some(Convert(TsvBox(cols), pageWidth, pageHeight))
  {
    OcrWord(cols[11], None, Some(Convert(TsvBox(cols), pageWidth, pageHeight)))
  }

  /** The pixel box of a TSV row: left and top from columns 6 and 7, grown by the width and height of columns 8 and 9. */
  function TsvBox(cols: seq<string>): BBox
  {
    var left, top := ColumnInt(cols, 6), ColumnInt(cols, 7);
    BBox(left as real, (left + ColumnInt(cols, 8)) as real, top as real, (top + ColumnInt(cols, 9)) as real)
  }

  /** The rows after dropping blank ones, then the words among them, in order. */
  function TsvWords(rows: seq<string>, pageWidth: real, pageHeight: real): (r: seq<OcrWord>)
    requires pageWidth > 0.0 && pageHeight > 0.0
    ensures |r| <= |rows|
    ensures forall k :: 0 <= k < |r| ==> r[k].text != "" && r[k].bbox.Some?
    ensures forall w :: w in r <==> exists row :: row in rows && IsTsvWordRow(row) && w == TsvWord(Split(row, '\t'), pageWidth, pageHeight)
  {
    if |rows| == 0 then []
    else
      var cols := Split(rows[0], '\t');
      var rest := TsvWords(rows[1..], pageWidth, pageHeight);
      assert forall row :: row in rows <==> row == rows[0] || row in rows[1..];
      if IsTsvWordRow(rows[0]) then
        var w0 := TsvWord(cols, pageWidth, pageHeight);
        assert forall w :: w in [w0] + rest <==> w == w0 || w in rest;
        [w0] + rest
      else rest
  }

  /** A row the fallback keeps: not blank, and a word row once split at tabs. */
  predicate IsTsvWordRow(row: string)
  {
    Trim(row) != "" && IsWordRow(Split(row, '\t'))
  }

  /** One row gives its word exactly when it is a word row, and nothing otherwise. */
  lemma TsvWordsOfRow(row: string, pageWidth: real, pageHeight: real)
    requires pageWidth > 0.0 && pageHeight > 0.0
    ensures IsTsvWordRow(row) ==> TsvWords([row], pageWidth, pageHeight) == [TsvWord(Split(row, '\t'), pageWidth, pageHeight)]
    ensures !IsTsvWordRow(row) ==> TsvWords([row], pageWidth, pageHeight) == []
  {
    assert [row][1..] == [];
  }

  /** The TSV fallback: the output split into rows, each row into tab-separated columns. */
  function ParseTsv(tsv: string, pageWidth: real, pageHeight: real): (r: seq<OcrWord>)
    requires pageWidth > 0.0 && pageHeight > 0.0
    ensures forall k :: 0 <= k < |r| ==> r[k].text != "" && r[k].bbox.Some?
    ensures forall w :: w in r <==>
              exists row :: row in Split(tsv, '\n') && IsTsvWordRow(row) && w == TsvWord(Split(row, '\t'), pageWidth, pageHeight)
  {
    TsvWords(Split(tsv, '\n'), pageWidth, pageHeight)
  }

  /** A row keeps its place: the words of two blocks of rows are the words of the first, then of the second. */
  lemma {:induction false} TsvWordsAppend(a: seq<string>, b: seq<string>, pageWidth: real, pageHeight: real)
    requires pageWidth > 0.0 && pageHeight > 0.0
    ensures TsvWords(a + b, pageWidth, pageHeight) == TsvWords(a, pageWidth, pageHeight) + TsvWords(b, pageWidth, pageHeight)
  {
    if |a| > 0 {
      assert (a + b)[1..] == a[1..] + b;
      assert (a + b)[0] == a[0];
      TsvWordsAppend(a[1..], b, pageWidth, pageHeight);
    } else {
      assert a + b == b;
    }
  }

  /** A level-5 row whose confidence is "-1" (a block with no recognised word) is never a word. */
  lemma NoConfidenceRowSkipped(row: string, pageWidth: real, pageHeight: real)
    requires pageWidth > 0.0 && pageHeight > 0.0
    requires Column(Split(row, '\t'), 10) == Some("-1")
    ensures TsvWords([row], pageWidth, pageHeight) == []
  {
  }

  // ---------------------------------------------------------------- recognition results

  /** What the recogniser returned, with the rendered page size. `words` are in rendered pixels. */
  datatype Recognised = Recognised(
    words: seq<(string, real, BBox)>,   // text, confidence, box
    tsv: Option<string>,
    text: string,
    confidence: real,                   // 0 when absent
    pageWidth: real,
    pageHeight: real)

  /** A page's stored result. */
  datatype PageResult = PageResult(text: string, confidence: int, words: seq<OcrWord>, isPdfText: bool)

  datatype Progress = Progress(progress: int, status: string)

  /** `Math.round`: to the nearest integer, halves upwards. */
  function Round(x: real): (n: int)
    ensures n as real - 0.5 <= x < n as real + 0.5
  {
    (x + 0.5).Floor
  }

  /** The words of a recognition: the recogniser's own when it gave any, else those of its TSV output. */
  function RecognisedWords(d: Recognised): (r: seq<OcrWord>)
    requires d.pageWidth > 0.0 && d.pageHeight > 0.0
    ensures |d.words| > 0 ==>
              (|r| == |d.words| &&
               forall k :: 0 <= k < |r| ==> r[k].text == d.words[k].0 && r[k].bbox == Some(Convert(d.words[k].2, d.pageWidth, d.pageHeight)))
    ensures |d.words| == 0 && d.tsv.Some? && d.tsv.value != "" ==> r == ParseTsv(d.tsv.value, d.pageWidth, d.pageHeight)
    ensures |d.words| == 0 && (d.tsv.None? || d.tsv.value == "") ==> r == []
  {
    if |d.words| > 0 then
      seq(|d.words|, k requires 0 <= k < |d.words| =>
        OcrWord(d.words[k].0, Some(Round(d.words[k].1)), Some(Convert(d.words[k].2, d.pageWidth, d.pageHeight))))
    else if d.tsv.Some? && d.tsv.value != "" then ParseTsv(d.tsv.value, d.pageWidth, d.pageHeight)
    else []
  }

  /** Every recognised word box lies inside the page. */
  lemma RecognisedBoxesInPage(d: Recognised)
    requires d.pageWidth > 0.0 && d.pageHeight > 0.0
    ensures forall k :: 0 <= k < |RecognisedWords(d)| && RecognisedWords(d)[k].bbox.Some? ==>
              var b := RecognisedWords(d)[k].bbox.value;
              0.0 <= b.x0 <= 1.0 && 0.0 <= b.x1 <= 1.0 && 0.0 <= b.y0 <= 1.0 && 0.0 <= b.y1 <= 1.0
  {
    var r := RecognisedWords(d);
    forall k | 0 <= k < |r| && r[k].bbox.Some?
      ensures 0.0 <= r[k].bbox.value.x0 <= 1.0 && 0.0 <= r[k].bbox.value.x1 <= 1.0 &&
              0.0 <= r[k].bbox.value.y0 <= 1.0 && 0.0 <= r[k].bbox.value.y1 <= 1.0
    {
      if |d.words| == 0 {
        TsvBoxesInPage(Split(d.tsv.value, '\n'), d.pageWidth, d.pageHeight, k);
      }
    }
  }

  lemma {:induction false} TsvBoxesInPage(rows: seq<string>, pageWidth: real, pageHeight: real, k: int)
    requires pageWidth > 0.0 && pageHeight > 0.0
    requires 0 <= k < |TsvWords(rows, pageWidth, pageHeight)|
    ensures var b := TsvWords(rows, pageWidth, pageHeight)[k].bbox.value;
            0.0 <= b.x0 <= 1.0 && 0.0 <= b.x1 <= 1.0 && 0.0 <= b.y0 <= 1.0 && 0.0 <= b.y1 <= 1.0
  {
    var cols := Split(rows[0], '\t');
    if IsTsvWordRow(rows[0]) {
      if k > 0 {
        TsvBoxesInPage(rows[1..], pageWidth, pageHeight, k - 1);
      }
    } else {
      TsvBoxesInPage(rows[1..], pageWidth, pageHeight, k);
    }
  }

  /** The result stored for a recognised page: trimmed text, rounded confidence or 90, not native text. */
  function RecognisedResult(d: Recognised): (r: PageResult)
    requires d.pageWidth > 0.0 && d.pageHeight > 0.0
    ensures !r.isPdfText && r.text == Trim(d.text) && r.words == RecognisedWords(d)
    ensures d.confidence == 0.0 ==> r.confidence == DEFAULT_CONFIDENCE
    ensures d.confidence != 0.0 ==> r.confidence == Round(d.confidence)
  {
    PageResult(Trim(d.text), if d.confidence != 0.0 then Round(d.confidence) else DEFAULT_CONFIDENCE, RecognisedWords(d), false)
  }

  /** A text item of a PDF page: its string, its origin (the transform's translation) and its size, in PDF units. */
  datatype TextItem = TextItem(str: string, tx: real, ty: real, width: real, height: real)

  function Strings(items: seq<TextItem>): (r: seq<string>)
    ensures |r| == |items| && forall k :: 0 <= k < |r| ==> r[k] == items[k].str
  {
    seq(|items|, k requires 0 <= k < |items| => items[k].str)
  }

  /** `extractPdfTextLayer`: the page text as the native test reads it, one full-confidence word per item. */
  function NativeResult(items: seq<TextItem>): (r: PageResult)
    ensures r.isPdfText && r.confidence == NATIVE_CONFIDENCE && r.text == PageText(Strings(items))
    ensures |r.words| == |items|
    ensures forall k :: 0 <= k < |items| ==>
              r.words[k].text == items[k].str && r.words[k].confidence == Some(NATIVE_CONFIDENCE) &&
              r.words[k].bbox == Some(BBox(items[k].tx, items[k].tx + items[k].width, items[k].ty - items[k].height, items[k].ty))
  {
    PageResult(PageText(Strings(items)), NATIVE_CONFIDENCE, NativeWords(items), true)
  }

  /** One full-confidence word per text item, boxed from its origin up by its height. */
  function NativeWords(items: seq<TextItem>): (r: seq<OcrWord>)
    ensures |r| == |items|
    ensures forall k :: 0 <= k < |items| ==>
              r[k].text == items[k].str && r[k].confidence == Some(NATIVE_CONFIDENCE) &&
              r[k].bbox == Some(BBox(items[k].tx, items[k].tx + items[k].width, items[k].ty - items[k].height, items[k].ty))
  {
    seq(|items|, k requires 0 <= k < |items| => NativeWord(items[k]))
  }

  function NativeWord(item: TextItem): OcrWord
  {
    OcrWord(item.str, Some(NATIVE_CONFIDENCE), Some(BBox(item.tx, item.tx + item.width, item.ty - item.height, item.ty)))
  }

  /** The text items of a page, `None` when the page cannot be read. */
  function TextOf(page: Option<seq<TextItem>>): Option<seq<string>>
  {
    if page.Some? then Some(Strings(page.value)) else None
  }

  /** Only a page that could be read has a real text layer. */
  lemma NativeNeedsPage(page: Option<seq<TextItem>>)
    ensures HasRealTextLayer(TextOf(page)) ==> page.Some?
  {
  }

  // ---------------------------------------------------------------- job state

  /** The hook's OCR state: results and progress per page, the running-job count and the batch flag. */
  class OcrState {
    var results: map<int, PageResult>
    var progress: map<int, Progress>
    var activeJobs: int
    var isOcrRunning: bool
    var isBatchRunning: bool

    /** The running flag is set exactly while some job is active, and the count is never negative. */
    ghost predicate Valid()
      reads this
    {
      activeJobs >= 0 && (isOcrRunning <==> activeJobs > 0)
    }

    constructor ()
      ensures Valid() && results == map[] && progress == map[] && activeJobs == 0 && !isOcrRunning && !isBatchRunning
    {
      results := map[];
      progress := map[];
      activeJobs := 0;
      isOcrRunning := false;
      isBatchRunning := false;
    }

    /** `beginJob`: one more job; the flag turns on when the first starts. */
    method BeginJob()
      requires Valid()
      modifies this`activeJobs, this`isOcrRunning
      ensures Valid() && activeJobs == old(activeJobs) + 1 && isOcrRunning
    {
      activeJobs := activeJobs + 1;
      if activeJobs == 1 {
        isOcrRunning := true;
      }
    }

    /** `endJob`: one job fewer, never below zero; the flag turns off when the last ends. */
    method EndJob()
      requires Valid()
      modifies this`activeJobs, this`isOcrRunning
      ensures Valid()
      ensures activeJobs == (if old(activeJobs) > 0 then old(activeJobs) - 1 else 0)
      ensures isOcrRunning <==> activeJobs > 0
    {
      activeJobs := if activeJobs - 1 > 0 then activeJobs - 1 else 0;
      if activeJobs == 0 {
        isOcrRunning := false;
      }
    }

    /**
     * `recognizePageWithWorker`, with the recogniser's answer passed in
     * (`None` when rendering or recognition fails): the job is counted while
     * it runs, and the page gets its result and "Done", or "Failed".
     */
    method RecognisePage(pageNumber: int, outcome: Option<Recognised>)
      requires Valid()
      requires outcome.Some? ==> outcome.value.pageWidth > 0.0 && outcome.value.pageHeight > 0.0
      modifies this`results, this`progress, this`activeJobs, this`isOcrRunning
      ensures Valid() && activeJobs == old(activeJobs) && isOcrRunning == old(isOcrRunning)
      ensures isBatchRunning == old(isBatchRunning)
      ensures outcome.Some? ==>
                results == old(results)[pageNumber := RecognisedResult(outcome.value)] &&
                progress == old(progress)[pageNumber := Progress(100, "Done")]
      ensures outcome.None? ==> results == old(results) && progress == old(progress)[pageNumber := Progress(0, "Failed")]
    {
      BeginJob();
      if outcome.Some? {
        results := results[pageNumber := RecognisedResult(outcome.value)];
        progress := progress[pageNumber := Progress(100, "Done")];
      } else {
        progress := progress[pageNumber := Progress(0, "Failed")];
      }
      EndJob();
    }

    /**
     * `extractTextForPage`: a page with a real text layer is stored as native
     * text with confidence 100 and never goes to the recogniser; any other
     * page is recognised.
     */
    method ExtractTextForPage(pageNumber: int, page: Option<seq<TextItem>>, outcome: Option<Recognised>)
      requires Valid()
      requires outcome.Some? ==> outcome.value.pageWidth > 0.0 && outcome.value.pageHeight > 0.0
      modifies this`results, this`progress, this`activeJobs, this`isOcrRunning
      ensures Valid() && activeJobs == old(activeJobs) && isBatchRunning == old(isBatchRunning)
      ensures HasRealTextLayer(TextOf(page)) ==>
                results == old(results)[pageNumber := NativeResult(page.value)] &&
                progress == old(progress)[pageNumber := Progress(100, "Native text")]
      ensures !HasRealTextLayer(TextOf(page)) && outcome.Some? ==>
                results == old(results)[pageNumber := RecognisedResult(outcome.value)] &&
                !results[pageNumber].isPdfText &&
                progress == old(progress)[pageNumber := Progress(100, "Done")]
      ensures !HasRealTextLayer(TextOf(page)) && outcome.None? ==>
                results == old(results) && progress == old(progress)[pageNumber := Progress(0, "Failed")]
    {
      NativeNeedsPage(page);
      var native := if HasRealTextLayer(TextOf(page)) then Some(NativeResult(page.value)) else None;
      StorePageText(pageNumber, native, outcome);
    }

    /** The two routes of `extractTextForPage` once the native-text test is decided: a `native` result is stored, otherwise the page is recognised. */
    method StorePageText(pageNumber: int, native: Option<PageResult>, outcome: Option<Recognised>)
      requires Valid()
      requires outcome.Some? ==> outcome.value.pageWidth > 0.0 && outcome.value.pageHeight > 0.0
      modifies this`results, this`progress, this`activeJobs, this`isOcrRunning
      ensures Valid() && activeJobs == old(activeJobs) && isBatchRunning == old(isBatchRunning)
      ensures native.Some? ==>
                results == old(results)[pageNumber := native.value] &&
                progress == old(progress)[pageNumber := Progress(100, "Native text")]
      ensures native.None? && outcome.Some? ==>
                results == old(results)[pageNumber := RecognisedResult(outcome.value)] &&
                progress == old(progress)[pageNumber := Progress(100, "Done")]
      ensures native.None? && outcome.None? ==>
                results == old(results) && progress == old(progress)[pageNumber := Progress(0, "Failed")]
    {
      if native.Some? {
        StoreNative(pageNumber, native.value);
      } else {
        RecognisePage(pageNumber, outcome);
      }
    }

    /** A page read from its own text layer: its result is stored with its progress marked as native text at 100. */
    method StoreNative(pageNumber: int, native: PageResult)
      requires Valid()
      modifies this`results, this`progress
      ensures Valid()
      ensures results == old(results)[pageNumber := native]
      ensures progress == old(progress)[pageNumber := Progress(100, "Native text")]
    {
      results := results[pageNumber := native];
      progress := progress[pageNumber := Progress(100, "Native text")];
    }

    /**
     * The start of `runOcrOnAllPages`: nothing when there is no document or a
     * batch is already running (0 pages); otherwise the batch flag is set and
     * page p is given worker (p − 1) mod the pool size. `assignment[p - 1]`
     * is page p's worker.
     */
    method StartBatch(hasDocument: bool, total: nat, workerCount: nat) returns (count: nat, assignment: seq<nat>)
      requires Valid()
      modifies this`isBatchRunning
      ensures Valid()
      ensures !hasDocument || old(isBatchRunning) || workerCount == 0 ==>
                count == 0 && assignment == [] && isBatchRunning == old(isBatchRunning)
      ensures hasDocument && !old(isBatchRunning) && workerCount > 0 ==>
                isBatchRunning && count == total && |assignment| == total &&
                forall k :: 0 <= k < total ==> assignment[k] == k % workerCount
    {
      if !hasDocument || isBatchRunning || workerCount == 0 {
        return 0, [];
      }
      isBatchRunning := true;
      assignment := [];
      var p := 1;
      while p <= total
        invariant 1 <= p <= total + 1 && |assignment| == p - 1
        invariant forall k :: 0 <= k < p - 1 ==> assignment[k] == k % workerCount
      {
        assignment := assignment + [(p - 1) % workerCount];
        p := p + 1;
      }
      count := total;
    }

    /** The end of `runOcrOnAllPages`, once every page has settled: the batch flag clears. */
    method FinishBatch()
      requires Valid()
      modifies this`isBatchRunning
      ensures Valid() && !isBatchRunning
    {
      isBatchRunning := false;
    }
  }
}
