/**
 * `normalizeClippingText`: the text of a new clipping, with carriage returns
 * removed, every line trimmed, the runs of non-blank lines of a paragraph
 * joined with single spaces and the paragraphs separated by one blank line.
 */
module ClippingText {
  import opened JsText

  /** A trimmed, non-empty line of one paragraph. */
  predicate TrimmedLine(s: string)
  {
    |s| > 0 && '\n' !in s && '\r' !in s && !IsSpace(s[0]) && !IsSpace(s[|s| - 1])
  }

  predicate AllTrimmedLines(lines: seq<string>)
  {
    forall i :: 0 <= i < |lines| ==> TrimmedLine(lines[i])
  }

  /** Lines as `split('\n')` yields them from a text without carriage returns. */
  predicate NoBreaks(lines: seq<string>)
  {
    forall i :: 0 <= i < |lines| ==> '\n' !in lines[i] && '\r' !in lines[i]
  }

  /** Trimmed lines: each one blank or a trimmed line. */
  predicate LinesOrBlanks(lines: seq<string>)
  {
    forall i :: 0 <= i < |lines| ==> lines[i] == "" || TrimmedLine(lines[i])
  }

  /** `line.trim()` for every line. */
  function TrimLines(lines: seq<string>): (r: seq<string>)
    requires NoBreaks(lines)
    ensures |r| == |lines|
    ensures LinesOrBlanks(r)
  {
    if |lines| == 0 then []
    else
      TrimmedLineOf(lines[0]);
      NoBreaksTail(lines);
      var rest := TrimLines(lines[1..]);
      LinesOrBlanksCons(Trim(lines[0]), rest);
      [Trim(lines[0])] + rest
  }

  lemma NoBreaksTail(lines: seq<string>)
    requires |lines| > 0 && NoBreaks(lines)
    ensures NoBreaks(lines[1..])
  {
    assert forall i :: 0 <= i < |lines| - 1 ==> lines[1..][i] == lines[i + 1];
  }

  lemma LinesOrBlanksCons(t: string, rest: seq<string>)
    requires t == "" || TrimmedLine(t)
    requires LinesOrBlanks(rest)
    ensures LinesOrBlanks([t] + rest)
  {
    assert forall i :: 1 <= i < |rest| + 1 ==> ([t] + rest)[i] == rest[i - 1];
  }

  /**
   * The `forEach` over the trimmed lines: `current` collects the lines of the
   * paragraph being read, and a blank line closes it.
   */
  function ParagraphsFrom(lines: seq<string>, current: seq<string>): seq<string>
    requires LinesOrBlanks(lines)
    requires AllTrimmedLines(current)
    decreases |lines|
  {
    if |lines| == 0 then
      if |current| > 0 then [JoinParagraph(current)] else []
    else
      assert LinesOrBlanks(lines[1..]);
      if lines[0] == [] then
        if |current| > 0 then [JoinParagraph(current)] + ParagraphsFrom(lines[1..], [])
        else ParagraphsFrom(lines[1..], [])
      else
        AllTrimmedConcat(current, [lines[0]]);
        ParagraphsFrom(lines[1..], current + [lines[0]])
  }

  /** Every paragraph is a trimmed line. */
  lemma {:induction false} ParagraphsTrimmed(lines: seq<string>, current: seq<string>)
    requires LinesOrBlanks(lines) && AllTrimmedLines(current)
    ensures AllTrimmedLines(ParagraphsFrom(lines, current))
    decreases |lines|
  {
    if |lines| > 0 {
      assert LinesOrBlanks(lines[1..]);
      if lines[0] == [] {
        ParagraphsTrimmed(lines[1..], []);
        if |current| > 0 {
          var rest := ParagraphsFrom(lines[1..], []);
          var j := JoinParagraph(current);
          assert ParagraphsFrom(lines, current) == [j] + rest;
          AllTrimmedConcat([j], rest);
        }
      } else {
        AllTrimmedConcat(current, [lines[0]]);
        ParagraphsTrimmed(lines[1..], current + [lines[0]]);
      }
    } else if |current| > 0 {
      assert ParagraphsFrom(lines, current) == [JoinParagraph(current)];
    }
  }

  lemma AllTrimmedConcat(a: seq<string>, b: seq<string>)
    requires AllTrimmedLines(a) && AllTrimmedLines(b)
    ensures AllTrimmedLines(a + b)
  {
    forall i | 0 <= i < |a + b| ensures TrimmedLine((a + b)[i]) {
      if i < |a| { assert (a + b)[i] == a[i]; } else { assert (a + b)[i] == b[i - |a|]; }
    }
  }

  /** `current.join(' ')`: the lines of a paragraph on one line. */
  function JoinParagraph(current: seq<string>): (p: string)
    requires |current| > 0 && AllTrimmedLines(current)
    ensures TrimmedLine(p)
    ensures p[0] == current[0][0]
    ensures |current| == 1 ==> p == current[0]
  {
    if |current| == 1 then current[0]
    else
      var rest := JoinParagraph(current[1..]);
      assert AllTrimmedLines(current[1..]);
      var p := current[0] + " " + rest;
      assert p[|p| - 1] == rest[|rest| - 1];
      assert forall k :: 0 <= k < |p| ==> p[k] == ' ' || p[k] in current[0] || p[k] in rest;
      p
  }

  /** A line without line breaks trims to a trimmed line or to nothing. */
  lemma TrimmedLineOf(s: string)
    requires '\n' !in s && '\r' !in s
    ensures Trim(s) != [] ==> TrimmedLine(Trim(s))
  {
    TrimInside(s);
  }

  /** The characters that `Trim` keeps come from its argument. */
  lemma TrimInside(s: string)
    ensures forall c :: c in Trim(s) ==> c in s
  {
    var a := TrimStart(s);
    var r := TrimEnd(a);
    assert forall c :: c in r ==> c in a;
    assert forall c :: c in a ==> c in s;
  }

  /** The paragraphs of a text: carriage returns dropped, split at line feeds, lines trimmed and grouped. */
  function Paragraphs(value: string): (ps: seq<string>)
    ensures AllTrimmedLines(ps)
  {
    var text := RemoveChar(value, '\r');
    SplitChars(text, '\n', '\r');
    var lines := TrimLines(Split(text, '\n'));
    ParagraphsTrimmed(lines, []);
    ParagraphsFrom(lines, [])
  }

  /** `normalizeClippingText`; a blank input gives the empty text. */
  function NormalizeClippingText(value: string): (r: string)
    ensures '\r' !in r
    ensures |r| > 0 ==> !IsSpace(r[0]) && !IsSpace(r[|r| - 1])
  {
    if value == "" then ""
    else
      var paragraphs := Paragraphs(value);
      var joined := Join(paragraphs, "\n\n");
      assert '\r' !in joined by { JoinChars(paragraphs, "\n\n", '\r'); }
      TrimInside(joined);
      Trim(joined)
  }

  // ---------------------------------------------------------------- structure

  /** A non-blank text is its paragraphs separated by a blank line; the final `trim` removes nothing. */
  lemma NormalizedIsParagraphs(value: string)
    requires value != ""
    ensures NormalizeClippingText(value) == Join(Paragraphs(value), "\n\n")
  {
    TrimOfParagraphs(Paragraphs(value));
  }

  /** Joining trimmed paragraphs leaves nothing for the final `trim` to remove. */
  lemma TrimOfParagraphs(ps: seq<string>)
    requires AllTrimmedLines(ps)
    ensures Trim(Join(ps, "\n\n")) == Join(ps, "\n\n")
  {
    var j := Join(ps, "\n\n");
    if |ps| > 0 {
      JoinEnds(ps, "\n\n");
      TrimOfUntrimmable(j);
    }
  }

  lemma {:induction false} JoinEnds(ps: seq<string>, sep: string)
    requires |ps| > 0 && AllTrimmedLines(ps)
    ensures var j := Join(ps, sep);
            |j| > 0 && j[0] == ps[0][0] && j[|j| - 1] == ps[|ps| - 1][|ps[|ps| - 1]| - 1]
  {
    if |ps| > 1 {
      JoinEnds(ps[1..], sep);
    }
  }

  lemma TrimOfUntrimmable(s: string)
    requires |s| > 0 && !IsSpace(s[0]) && !IsSpace(s[|s| - 1])
    ensures Trim(s) == s
  {
    assert TrimStart(s) == s;
    assert TrimEnd(s) == s;
  }

  // ---------------------------------------------------------------- idempotence

  /** The lines of `Join(ps, "\n\n")`: each paragraph followed by an empty line, except the last. */
  function Interleave(ps: seq<string>): (r: seq<string>)
    requires |ps| > 0 && AllTrimmedLines(ps)
    ensures NoBreaks(r) && LinesOrBlanks(r)
  {
    if |ps| == 1 then ps
    else
      assert AllTrimmedLines(ps[1..]);
      var tail := Interleave(ps[1..]);
      var r := [ps[0], ""] + tail;
      assert forall i :: 2 <= i < |r| ==> r[i] == tail[i - 2];
      r
  }

  lemma {:induction false} SplitOfParagraphs(ps: seq<string>)
    requires |ps| > 0 && AllTrimmedLines(ps)
    ensures Split(Join(ps, "\n\n"), '\n') == Interleave(ps)
  {
    if |ps| == 1 {
      SplitNoSep(ps[0], '\n');
    } else {
      var rest := Join(ps[1..], "\n\n");
      assert AllTrimmedLines(ps[1..]);
      assert Join(ps, "\n\n") == ps[0] + ['\n'] + ("" + ['\n'] + rest);
      SplitAt(ps[0], "" + ['\n'] + rest, '\n');
      SplitAt("", rest, '\n');
      SplitOfParagraphs(ps[1..]);
    }
  }

  /** Trimming lines that are already trimmed changes none of them. */
  lemma {:induction false} TrimLinesOfTrimmed(lines: seq<string>)
    requires NoBreaks(lines) && LinesOrBlanks(lines)
    ensures TrimLines(lines) == lines
  {
    if |lines| > 0 {
      if lines[0] != "" {
        TrimOfUntrimmable(lines[0]);
      }
      NoBreaksTail(lines);
      assert LinesOrBlanks(lines[1..]);
      TrimLinesOfTrimmed(lines[1..]);
    }
  }

  lemma {:induction false} ParagraphsOfInterleave(ps: seq<string>)
    requires |ps| > 0 && AllTrimmedLines(ps)
    ensures ParagraphsFrom(Interleave(ps), []) == ps
  {
    if |ps| == 1 {
      assert ParagraphsFrom([ps[0]], []) == ParagraphsFrom([], [ps[0]]);
    } else {
      assert AllTrimmedLines(ps[1..]);
      ParagraphsOfInterleaveCons(ps);
      ParagraphsOfInterleave(ps[1..]);
    }
  }

  lemma ParagraphsOfInterleaveCons(ps: seq<string>)
    requires |ps| > 1 && AllTrimmedLines(ps)
    ensures AllTrimmedLines(ps[1..])
    ensures ParagraphsFrom(Interleave(ps), []) == [ps[0]] + ParagraphsFrom(Interleave(ps[1..]), [])
  {
    assert AllTrimmedLines(ps[1..]);
    var p, tail := ps[0], Interleave(ps[1..]);
    var lines := Interleave(ps);
    assert lines == [p, ""] + tail;
    assert lines[1..] == [""] + tail && lines[1..][1..] == tail;
    assert ParagraphsFrom(lines, []) == ParagraphsFrom([""] + tail, [p]);
  }

  /** Reading the paragraphs back out of their joined text gives them again. */
  lemma ParagraphsOfJoined(ps: seq<string>)
    requires |ps| > 0 && AllTrimmedLines(ps)
    ensures Paragraphs(Join(ps, "\n\n")) == ps
  {
    var j := Join(ps, "\n\n");
    JoinChars(ps, "\n\n", '\r');
    assert RemoveChar(j, '\r') == j;
    SplitOfParagraphs(ps);
    TrimLinesOfTrimmed(Interleave(ps));
    ParagraphsOfInterleave(ps);
  }

  /** A non-empty result comes from at least one paragraph. */
  lemma NormalizedNonEmpty(value: string)
    requires NormalizeClippingText(value) != ""
    ensures value != "" && |Paragraphs(value)| > 0
    ensures NormalizeClippingText(value) == Join(Paragraphs(value), "\n\n")
  {
    NormalizedIsParagraphs(value);
  }

  /** Joined paragraphs are already normal. */
  lemma NormalizeOfJoined(ps: seq<string>)
    requires |ps| > 0 && AllTrimmedLines(ps)
    ensures NormalizeClippingText(Join(ps, "\n\n")) == Join(ps, "\n\n")
  {
    JoinEnds(ps, "\n\n");
    ParagraphsOfJoined(ps);
    NormalizedIsParagraphs(Join(ps, "\n\n"));
  }

  /** Normalising normalised text changes nothing. */
  lemma NormalizeIdempotent(value: string)
    ensures NormalizeClippingText(NormalizeClippingText(value)) == NormalizeClippingText(value)
  {
    if NormalizeClippingText(value) != "" {
      NormalizedNonEmpty(value);
      NormalizeOfJoined(Paragraphs(value));
    }
  }
}
