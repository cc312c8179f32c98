/**
 * The selectable text layer drawn over a recognised page: its words are
 * grouped into lines by their top edge, and a copy rebuilds the selected
 * words' text line by line. The sort the layer applies before grouping uses a
 * tolerance comparator; the order it produces is an input here, any
 * permutation of the kept words.
 */
module OcrTextLayer {
  import opened Wrappers
  import opened JsText
  import opened WorkspaceUtils
  import opened OcrPipeline

  const LINE_THRESHOLD: real := 0.015
  const MIN_WIDTH_PERCENT: real := 0.3
  const MIN_HEIGHT_PERCENT: real := 0.5

  // ---------------------------------------------------------------- grouping

  /** A word the layer can place: it has text and a box. */
  predicate Placeable(w: OcrWord) { w.text != "" && w.bbox.Some? }

  /** `words.filter(w => w.text && w.bbox)` */
  function Kept(words: seq<OcrWord>): (r: seq<OcrWord>)
    ensures |r| <= |words|
    ensures forall k :: 0 <= k < |r| ==> Placeable(r[k])
    ensures forall w :: w in words && Placeable(w) ==> w in r
  {
    if |words| == 0 then []
    else (if Placeable(words[0]) then [words[0]] else []) + Kept(words[1..])
  }

  /** The top edge of a word's box (0 for a word without one, which the layer never places). */
  function Top(w: OcrWord): real
  {
    if w.bbox.Some? then w.bbox.value.y0 else 0.0
  }

  /** Two words in reading order belong to one line when their top edges are within the threshold. */
  predicate SameLine(prev: OcrWord, curr: OcrWord)
  {
    Abs(Top(curr) - Top(prev)) <= LINE_THRESHOLD
  }

  /** A line: non-empty, and each word within the threshold of the one before it. */
  predicate IsLine(line: seq<OcrWord>)
  {
    |line| > 0 && forall k :: 0 < k < |line| ==> SameLine(line[k - 1], line[k])
  }

  /** Each line after the first starts a threshold away from where the previous one ended. */
  predicate Broken(lines: seq<seq<OcrWord>>)
  {
    forall k :: 0 < k < |lines| && |lines[k - 1]| > 0 && |lines[k]| > 0 ==>
      !SameLine(Last(lines[k - 1]), lines[k][0])
  }

  /** Replacing the last line by one with the same first word keeps the breaks. */
  lemma BrokenGrowLast(lines: seq<seq<OcrWord>>, a: seq<OcrWord>, b: seq<OcrWord>)
    requires Broken(lines + [a]) && |a| > 0 && |b| > 0 && a[0] == b[0]
    ensures Broken(lines + [b])
  {
    forall k | 0 < k < |lines + [b]| && |(lines + [b])[k - 1]| > 0 && |(lines + [b])[k]| > 0
      ensures !SameLine(Last((lines + [b])[k - 1]), (lines + [b])[k][0])
    {
      assert (lines + [a])[k - 1] == (lines + [b])[k - 1];
      if k == |lines| {
        assert (lines + [a])[k] == a;
      } else {
        assert (lines + [a])[k] == (lines + [b])[k];
      }
    }
  }

  /** Starting a new line a threshold away from the last word keeps the breaks. */
  lemma BrokenNewLine(lines: seq<seq<OcrWord>>, a: seq<OcrWord>, b: seq<OcrWord>)
    requires Broken(lines + [a]) && |a| > 0 && |b| > 0 && !SameLine(Last(a), b[0])
    ensures Broken(lines + [a] + [b])
  {
    var all := lines + [a] + [b];
    forall k | 0 < k < |all| && |all[k - 1]| > 0 && |all[k]| > 0
      ensures !SameLine(Last(all[k - 1]), all[k][0])
    {
      if k < |all| - 1 {
        assert all[k - 1] == (lines + [a])[k - 1] && all[k] == (lines + [a])[k];
      }
    }
  }

  function Last(line: seq<OcrWord>): OcrWord
    requires |line| > 0
  {
    line[|line| - 1]
  }

  /** The lines read one after the other. */
  function Concat(lines: seq<seq<OcrWord>>): (r: seq<OcrWord>)
  {
    if |lines| == 0 then [] else Concat(lines[..|lines| - 1]) + lines[|lines| - 1]
  }

  /**
   * `groupWordsByLines`: the placeable words, in the order `sorted` gives
   * them, cut into lines wherever the top edge jumps by more than 0.015.
   * Reading the lines back gives `sorted` exactly: each kept word once.
   */
  method GroupWordsByLines(words: seq<OcrWord>, sorted: seq<OcrWord>) returns (lines: seq<seq<OcrWord>>)
    requires multiset(sorted) == multiset(Kept(words))
    ensures |Kept(words)| == 0 ==> lines == []
    ensures Concat(lines) == sorted
    ensures forall k :: 0 <= k < |lines| ==> IsLine(lines[k])
    ensures Broken(lines)
  {
    if |words| == 0 {
      return [];
    }
    if |sorted| == 0 {
      return [];
    }
    lines := [];
    var current := [sorted[0]];
    var i := 1;
    while i < |sorted|
      invariant 1 <= i <= |sorted|
      invariant Concat(lines) + current == sorted[..i]
      invariant forall k :: 0 <= k < |lines| ==> IsLine(lines[k])
      invariant IsLine(current) && Last(current) == sorted[i - 1]
      invariant Broken(lines + [current])
    {
      var prev, curr := sorted[i - 1], sorted[i];
      if Abs(Top(curr) - Top(prev)) <= LINE_THRESHOLD {
        BrokenGrowLast(lines, current, current + [curr]);
        current := current + [curr];
      } else {
        BrokenNewLine(lines, current, [curr]);
        lines := lines + [current];
        current := [curr];
      }
      assert sorted[..i + 1] == sorted[..i] + [curr];
      i := i + 1;
    }
    lines := lines + [current];
  }

  /** The lines hold exactly the placeable words, each as often as it occurs among them. */
  lemma GroupedWordsArePermutation(words: seq<OcrWord>, sorted: seq<OcrWord>, lines: seq<seq<OcrWord>>)
    requires multiset(sorted) == multiset(Kept(words)) && Concat(lines) == sorted
    ensures multiset(Concat(lines)) == multiset(Kept(words))
    ensures forall k, j :: 0 <= k < |lines| && 0 <= j < |lines[k]| ==> Placeable(lines[k][j])
  {
    forall k, j | 0 <= k < |lines| && 0 <= j < |lines[k]|
      ensures Placeable(lines[k][j])
    {
      ConcatHolds(lines, k, j);
      var w := lines[k][j];
      assert w in multiset(Kept(words));
      assert w in Kept(words);
    }
  }

  lemma {:induction false} ConcatHolds(lines: seq<seq<OcrWord>>, k: int, j: int)
    requires 0 <= k < |lines| && 0 <= j < |lines[k]|
    ensures lines[k][j] in Concat(lines)
  {
    var front := lines[..|lines| - 1];
    assert Concat(lines) == Concat(front) + lines[|lines| - 1];
    if k < |lines| - 1 {
      assert lines[k] == front[k];
      ConcatHolds(front, k, j);
    }
  }

  // ---------------------------------------------------------------- copying

  /** `if (acc) acc += sep; acc += part`: a separator only between non-empty text. */
  function Glue(acc: string, sep: string, part: string): string
  {
    if acc == "" then part else acc + sep + part
  }

  /** The selected words of line `lineIndex` among its first `n`, glued with spaces. */
  function LineText(line: seq<OcrWord>, lineIndex: int, selected: set<(int, int)>, n: nat): string
    requires n <= |line|
  {
    if n == 0 then ""
    else
      var before := LineText(line, lineIndex, selected, n - 1);
      if (lineIndex, n - 1) in selected then Glue(before, " ", line[n - 1].text) else before
  }

  /** The first `n` lines' non-empty texts, glued with newlines. */
  function CopiedText(lines: seq<seq<OcrWord>>, selected: set<(int, int)>, n: nat): string
    requires n <= |lines|
  {
    if n == 0 then ""
    else
      var before := CopiedText(lines, selected, n - 1);
      var text := LineText(lines[n - 1], n - 1, selected, |lines[n - 1]|);
      if text != "" then Glue(before, "\n", text) else before
  }

  /**
   * The copy handler's text for the words selected by (line, word) index:
   * nothing when the selection holds no word of the layer or the rebuilt
   * text is empty.
   */
  method CopyText(lines: seq<seq<OcrWord>>, selected: set<(int, int)>) returns (copied: Option<string>)
    ensures selected == {} ==> copied == None
    ensures selected != {} && CopiedText(lines, selected, |lines|) != "" ==>
              copied == Some(CopiedText(lines, selected, |lines|))
    ensures CopiedText(lines, selected, |lines|) == "" ==> copied == None
  {
    if selected == {} {
      return None;
    }
    var reconstructed := "";
    var i := 0;
    while i < |lines|
      invariant 0 <= i <= |lines| && reconstructed == CopiedText(lines, selected, i)
    {
      var line := lines[i];
      var lineText := "";
      var j := 0;
      while j < |line|
        invariant 0 <= j <= |line| && lineText == LineText(line, i, selected, j)
      {
        if (i, j) in selected {
          if lineText != "" {
            lineText := lineText + " ";
          }
          lineText := lineText + line[j].text;
        }
        j := j + 1;
      }
      if lineText != "" {
        if reconstructed != "" {
          reconstructed := reconstructed + "\n";
        }
        reconstructed := reconstructed + lineText;
      }
      i := i + 1;
    }
    copied := if reconstructed != "" then Some(reconstructed) else None;
  }

  /** The texts of the selected words of line `lineIndex` among its first `n`, in order. */
  function SelectedTexts(line: seq<OcrWord>, lineIndex: int, selected: set<(int, int)>, n: nat): (r: seq<string>)
    requires n <= |line|
    ensures |r| <= n
  {
    if n == 0 then []
    else
      SelectedTexts(line, lineIndex, selected, n - 1) +
      (if (lineIndex, n - 1) in selected then [line[n - 1].text] else [])
  }

  /** The non-empty line texts of the first `n` lines, in order. */
  function LineTexts(lines: seq<seq<OcrWord>>, selected: set<(int, int)>, n: nat): (r: seq<string>)
    requires n <= |lines|
    ensures forall k :: 0 <= k < |r| ==> r[k] != ""
  {
    if n == 0 then []
    else
      var text := LineText(lines[n - 1], n - 1, selected, |lines[n - 1]|);
      LineTexts(lines, selected, n - 1) + (if text != "" then [text] else [])
  }

  /** Appending to a space- or newline-joined list puts one separator before the new part. */
  lemma {:induction false} JoinSnoc(parts: seq<string>, sep: string, x: string)
    requires |parts| > 0
    ensures Join(parts + [x], sep) == Join(parts, sep) + sep + x
  {
    if |parts| == 1 {
      assert (parts + [x])[1..] == [x];
    } else {
      assert (parts + [x])[1..] == parts[1..] + [x];
      JoinSnoc(parts[1..], sep, x);
    }
  }

  /** A join of non-empty parts is empty only when there are no parts. */
  lemma {:induction false} JoinEmpty(parts: seq<string>, sep: string)
    requires forall k :: 0 <= k < |parts| ==> parts[k] != ""
    ensures Join(parts, sep) == "" <==> |parts| == 0
  {
    if |parts| > 1 {
      assert |Join(parts, sep)| >= |parts[0]|;
    }
  }

  /** With words that all have text, a line's copy is its selected words joined by single spaces. */
  lemma {:induction false} LineTextIsJoin(line: seq<OcrWord>, lineIndex: int, selected: set<(int, int)>, n: nat)
    requires n <= |line| && forall j :: 0 <= j < |line| ==> line[j].text != ""
    ensures LineText(line, lineIndex, selected, n) == Join(SelectedTexts(line, lineIndex, selected, n), " ")
    ensures forall k :: 0 <= k < |SelectedTexts(line, lineIndex, selected, n)| ==> SelectedTexts(line, lineIndex, selected, n)[k] != ""
  {
    if n > 0 {
      LineTextIsJoin(line, lineIndex, selected, n - 1);
      var before := SelectedTexts(line, lineIndex, selected, n - 1);
      if (lineIndex, n - 1) in selected {
        JoinEmpty(before, " ");
        if |before| > 0 {
          JoinSnoc(before, " ", line[n - 1].text);
        } else {
          assert before + [line[n - 1].text] == [line[n - 1].text];
        }
      } else {
        assert before + [] == before;
      }
    }
  }

  /** The copied text is the non-empty line texts joined by newlines. */
  lemma {:induction false} CopiedTextIsJoin(lines: seq<seq<OcrWord>>, selected: set<(int, int)>, n: nat)
    requires n <= |lines|
    ensures CopiedText(lines, selected, n) == Join(LineTexts(lines, selected, n), "\n")
  {
    if n > 0 {
      CopiedTextIsJoin(lines, selected, n - 1);
      var before := LineTexts(lines, selected, n - 1);
      var text := LineText(lines[n - 1], n - 1, selected, |lines[n - 1]|);
      if text != "" {
        JoinEmpty(before, "\n");
        if |before| > 0 {
          JoinSnoc(before, "\n", text);
        } else {
          assert before + [text] == [text];
        }
      } else {
        assert before + [] == before;
      }
    }
  }

  /** A line with no selected word contributes nothing to the copy. */
  lemma {:induction false} UnselectedLineIsSkipped(lines: seq<seq<OcrWord>>, selected: set<(int, int)>, m: nat)
    requires m < |lines|
    requires forall j :: 0 <= j < |lines[m]| ==> (m, j) !in selected
    ensures CopiedText(lines, selected, m + 1) == CopiedText(lines, selected, m)
  {
    NoSelectionNoText(lines[m], m, selected, |lines[m]|);
  }

  lemma {:induction false} NoSelectionNoText(line: seq<OcrWord>, lineIndex: int, selected: set<(int, int)>, n: nat)
    requires n <= |line| && forall j :: 0 <= j < n ==> (lineIndex, j) !in selected
    ensures LineText(line, lineIndex, selected, n) == ""
  {
    if n > 0 {
      NoSelectionNoText(line, lineIndex, selected, n - 1);
    }
  }

  // ---------------------------------------------------------------- rendering

  /** The layer draws only over a page that was recognised (not native text) and has words. */
  predicate ShowsLayer(result: Option<PageResult>)
  {
    result.Some? && !result.value.isPdfText && |result.value.words| > 0
  }

  /** A word's placement in percent of the page: left, top, width, height. */
  datatype Placement = Placement(left: real, top: real, width: real, height: real)

  /** The placed box: at least 0.3% wide and 0.5% high, otherwise the box's own (clamped) size. */
  function Place(b: BBox): (p: Placement)
    ensures p.left == b.x0 * 100.0 && p.top == b.y0 * 100.0
    ensures p.width >= MIN_WIDTH_PERCENT && p.height >= MIN_HEIGHT_PERCENT
    ensures p.width <= 100.0 && p.height <= 100.0
    ensures 0.003 <= b.x1 - b.x0 <= 1.0 ==> p.width == (b.x1 - b.x0) * 100.0
    ensures 0.005 <= b.y1 - b.y0 <= 1.0 ==> p.height == (b.y1 - b.y0) * 100.0
  {
    var widthNorm := UnitClamp(b.x1 - b.x0);
    var heightNorm := UnitClamp(b.y1 - b.y0);
    Placement(b.x0 * 100.0, b.y0 * 100.0, Max(widthNorm * 100.0, MIN_WIDTH_PERCENT), Max(heightNorm * 100.0, MIN_HEIGHT_PERCENT))
  }
}
