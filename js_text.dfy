/**
 * The JavaScript string and number built-ins the annotation engine leans on:
 * `trim`, `split`, `join`, `parseInt(s, 10)`, decimal formatting of integers,
 * `toLowerCase` and `indexOf`. Only the behaviour the engine relies on is
 * modelled: one-for-one case mapping of the Latin, Greek and Cyrillic
 * capitals, and base-10 parsing.
 */
module JsText {
  import opened Wrappers

  /**
   * White space and line terminators, as `trim`, `parseInt` and `\s` see them:
   * the ASCII ones, no-break space, the byte-order mark, the line and paragraph
   * separators and every space separator of Unicode.
   */
  predicate IsSpace(c: char)
  {
    c == ' ' || c == '\t' || c == '\n' || c == '\r' || c == '\U{B}' || c == '\U{C}'
    || c == '\U{A0}' || c == '\U{FEFF}' || c == '\U{2028}' || c == '\U{2029}'
    || c == '\U{1680}' || ('\U{2000}' <= c <= '\U{200A}') || c == '\U{202F}' || c == '\U{205F}' || c == '\U{3000}'
  }

  predicate IsDigit(c: char) { '0' <= c <= '9' }

  predicate IsAsciiLetter(c: char) { ('A' <= c <= 'Z') || ('a' <= c <= 'z') }

  predicate AllDigits(s: string) { forall k :: 0 <= k < |s| ==> IsDigit(s[k]) }

  predicate AllSpace(s: string) { forall k :: 0 <= k < |s| ==> IsSpace(s[k]) }

  // ---------------------------------------------------------------- trimming

  function TrimStart(s: string): (r: string)
    ensures |r| <= |s| && r == s[|s| - |r|..]
    ensures |r| > 0 ==> !IsSpace(r[0])
    ensures AllSpace(s[..|s| - |r|])
  {
    if |s| > 0 && IsSpace(s[0]) then
      var r := TrimStart(s[1..]);
      assert s[1..][..|s[1..]| - |r|] == s[1..|s| - |r|];
      r
    else s
  }

  function TrimEnd(s: string): (r: string)
    ensures |r| <= |s| && r == s[..|r|]
    ensures |r| > 0 ==> !IsSpace(r[|r| - 1])
    ensures AllSpace(s[|r|..])
  {
    if |s| > 0 && IsSpace(s[|s| - 1]) then
      var r := TrimEnd(s[..|s| - 1]);
      assert s[..|s| - 1][|r|..] + [s[|s| - 1]] == s[|r|..];
      r
    else s
  }

  /** `String.prototype.trim`: the sub-string left after removing the space at both ends. */
  function Trim(s: string): (r: string)
    ensures |r| <= |s|
    ensures |r| > 0 ==> !IsSpace(r[0]) && !IsSpace(r[|r| - 1])
    ensures r == [] <==> AllSpace(s)
  {
    var a := TrimStart(s);
    var r := TrimEnd(a);
    assert r == [] ==> s == s[..|s| - |a|] + a[|r|..];
    assert r != [] ==> s[|s| - |a|] == r[0];
    r
  }

  // ---------------------------------------------------------------- split / join

  /** `s.split(sep)` for a one-character separator. */
  function Split(s: string, sep: char): (r: seq<string>)
    ensures |r| >= 1
    ensures forall i :: 0 <= i < |r| ==> sep !in r[i]
  {
    if |s| == 0 then [""]
    else
      var rest := Split(s[1..], sep);
      if s[0] == sep then [""] + rest
      else [[s[0]] + rest[0]] + rest[1..]
  }

  /** Splitting never introduces a character. */
  lemma {:induction false} SplitChars(s: string, sep: char, c: char)
    requires c !in s
    ensures forall i :: 0 <= i < |Split(s, sep)| ==> c !in Split(s, sep)[i]
  {
    if |s| > 0 {
      SplitChars(s[1..], sep, c);
    }
  }

  /** `parts.join(sep)` */
  function Join(parts: seq<string>, sep: string): string
  {
    if |parts| == 0 then ""
    else if |parts| == 1 then parts[0]
    else parts[0] + sep + Join(parts[1..], sep)
  }

  /** `s.replace(/c/g, '')`: `s` with every `c` removed. */
  function RemoveChar(s: string, c: char): (r: string)
    ensures c !in r
    ensures forall d :: d in r <==> d in s && d != c
    ensures c !in s ==> r == s
  {
    if |s| == 0 then ""
    else
      assert s == [s[0]] + s[1..];
      (if s[0] == c then "" else [s[0]]) + RemoveChar(s[1..], c)
  }

  /** A character of a joined string comes from one of the parts or from the separator. */
  lemma {:induction false} JoinChars(parts: seq<string>, sep: string, c: char)
    requires c !in sep
    requires forall i :: 0 <= i < |parts| ==> c !in parts[i]
    ensures c !in Join(parts, sep)
  {
    if |parts| > 1 {
      JoinChars(parts[1..], sep, c);
    }
  }

  lemma {:induction false} JoinSplit(s: string, sep: char)
    ensures Join(Split(s, sep), [sep]) == s
  {
    if |s| > 0 {
      JoinSplit(s[1..], sep);
      var rest := Split(s[1..], sep);
      if s[0] != sep {
        if |rest| == 1 {
          assert Split(s, sep) == [[s[0]] + rest[0]];
        } else {
          assert Split(s, sep)[1..] == rest[1..];
          assert Join(rest, [sep]) == rest[0] + [sep] + Join(rest[1..], [sep]);
        }
      }
    }
  }

  /** Joining parts free of the separator and splitting the result gives the parts back. */
  lemma {:induction false} SplitJoin(parts: seq<string>, sep: char)
    requires |parts| >= 1
    requires forall i :: 0 <= i < |parts| ==> sep !in parts[i]
    ensures Split(Join(parts, [sep]), sep) == parts
  {
    if |parts| == 1 {
      SplitNoSep(parts[0], sep);
    } else {
      SplitJoin(parts[1..], sep);
      SplitAt(parts[0], Join(parts[1..], [sep]), sep);
      assert [parts[0]] + parts[1..] == parts;
    }
  }

  /** Splitting at the first separator: the text before it, then the split of the rest. */
  lemma {:induction false} SplitAt(s: string, t: string, sep: char)
    requires sep !in s
    ensures Split(s + [sep] + t, sep) == [s] + Split(t, sep)
  {
    if |s| == 0 {
      assert s + [sep] + t == [sep] + t;
      assert ([sep] + t)[1..] == t;
    } else {
      assert (s + [sep] + t)[1..] == s[1..] + [sep] + t;
      SplitAt(s[1..], t, sep);
      assert [s[0]] + s[1..] == s;
    }
  }

  /** The text before the first occurrence of `sep`: `s.split(sep)[0]`. */
  lemma SplitFirst(s: string, t: string, sep: char)
    requires sep !in s
    ensures Split(s + [sep] + t, sep)[0] == s
  {
    SplitAt(s, t, sep);
  }

  lemma {:induction false} SplitNoSep(s: string, sep: char)
    requires sep !in s
    ensures Split(s, sep) == [s]
  {
    if |s| > 0 {
      assert s[0] != sep && sep !in s[1..];
      SplitNoSep(s[1..], sep);
      assert [s[0]] + s[1..] == s;
    }
  }

  // ---------------------------------------------------------------- numbers

  function DigitValue(c: char): nat
    requires IsDigit(c)
  {
    (c as int - '0' as int) as nat
  }

  function DigitChar(d: nat): (c: char)
    requires d < 10
    ensures IsDigit(c) && DigitValue(c) == d
  {
    ('0' as int + d) as char
  }

  /** The value of a run of decimal digits. */
  function DigitsValue(s: string): nat
    requires AllDigits(s)
  {
    if |s| == 0 then 0 else DigitsValue(s[..|s| - 1]) * 10 + DigitValue(s[|s| - 1])
  }

  /** The longest prefix of `s` made of decimal digits. */
  function DigitPrefix(s: string): (r: string)
    ensures AllDigits(r) && |r| <= |s| && r == s[..|r|]
    ensures |r| < |s| ==> !IsDigit(s[|r|])
  {
    if |s| > 0 && IsDigit(s[0]) then [s[0]] + DigitPrefix(s[1..]) else ""
  }

  /** `parseInt(s, 10)`, with `None` for `NaN`: leading space, an optional sign, then the digits up to the first non-digit. */
  function ParseInt(s: string): Option<int>
  {
    ParseSigned(TrimStart(s))
  }

  /** The text starts, after its leading white space, with a digit or with a sign and a digit. */
  predicate StartsWithInteger(s: string)
  {
    var t := TrimStart(s);
    |t| > 0 && (IsDigit(t[0]) || ((t[0] == '-' || t[0] == '+') && |t| > 1 && IsDigit(t[1])))
  }

  /** `parseInt` gives a number exactly when the text starts with an integer. */
  lemma ParseIntDefined(s: string)
    ensures ParseInt(s).Some? <==> StartsWithInteger(s)
  {
    var t := TrimStart(s);
    if |t| > 0 && (t[0] == '-' || t[0] == '+') {
      assert ParseDigits(t[1..]).None? <==> t[1..] == [] || !IsDigit(t[1..][0]);
    }
  }

  function ParseSigned(t: string): Option<int>
  {
    if |t| > 0 && (t[0] == '-' || t[0] == '+') then
      match ParseDigits(t[1..])
      case None => None
      case Some(v) => var w: int := v; Some(if t[0] == '-' then -w else w)
    else
      match ParseDigits(t)
      case None => None
      case Some(v) => Some(v)
  }

  function ParseDigits(t: string): (r: Option<nat>)
    ensures r.None? <==> t == [] || !IsDigit(t[0])
  {
    var d := DigitPrefix(t);
    if |d| == 0 then None else Some(DigitsValue(d))
  }

  /** Decimal formatting of a natural number, as template strings print it. */
  function NatToString(n: nat): (r: string)
    ensures |r| >= 1 && AllDigits(r)
    ensures DigitsValue(r) == n
  {
    if n < 10 then [DigitChar(n)]
    else
      var r := NatToString(n / 10) + [DigitChar(n % 10)];
      assert r[..|r| - 1] == NatToString(n / 10);
      r
  }

  /** Decimal formatting of an integer, as `String(n)` and template strings print it. */
  function IntToString(n: int): (r: string)
    ensures |r| >= 1
    ensures n >= 0 ==> r == NatToString(n)
    ensures n < 0 ==> r == "-" + NatToString(-n)
  {
    if n >= 0 then NatToString(n) else "-" + NatToString(-n)
  }

  /** `parseInt` reads a formatted integer back, whatever non-digit text follows it. */
  lemma ParseIntOfIntToString(i: int, t: string)
    requires t == [] || !IsDigit(t[0])
    ensures ParseInt(IntToString(i) + t) == Some(i)
  {
    if i >= 0 {
      ParseIntOfNatToString(i, t);
    } else {
      ParseIntOfNegative(-i, t);
    }
  }

  lemma ParseIntOfNegative(v: nat, t: string)
    requires v > 0 && (t == [] || !IsDigit(t[0]))
    ensures ParseInt("-" + NatToString(v) + t) == Some(-(v as int))
  {
    var n := NatToString(v);
    ParseDigitsOfDigits(n, t);
    ParseSignedNegative(n + t, v);
    assert "-" + n + t == "-" + (n + t);
    ParseIntUntrimmed("-" + (n + t));
  }

  lemma ParseSignedNegative(u: string, v: nat)
    requires ParseDigits(u) == Some(v)
    ensures ParseSigned("-" + u) == Some(-(v as int))
  {
    assert ("-" + u)[1..] == u;
  }

  lemma {:induction false} DigitPrefixOfDigits(d: string, t: string)
    requires AllDigits(d)
    requires t == [] || !IsDigit(t[0])
    ensures DigitPrefix(d + t) == d
  {
    if |d| > 0 {
      assert (d + t)[1..] == d[1..] + t;
      DigitPrefixOfDigits(d[1..], t);
    }
  }

  /** Parsing a formatted natural number back, with anything that does not start with a digit after it. */
  lemma ParseIntOfNatToString(i: nat, t: string)
    requires t == [] || !IsDigit(t[0])
    ensures ParseInt(NatToString(i) + t) == Some(i)
  {
    var n := NatToString(i);
    assert (n + t)[0] == n[0];
    ParseDigitsOfDigits(n, t);
    ParseSignedUnsigned(n + t, DigitsValue(n));
    ParseIntUntrimmed(n + t);
  }

  lemma ParseSignedUnsigned(u: string, v: nat)
    requires ParseDigits(u) == Some(v)
    ensures ParseSigned(u) == Some(v)
  {
  }

  lemma ParseIntUntrimmed(s: string)
    requires |s| > 0 && !IsSpace(s[0])
    ensures ParseInt(s) == ParseSigned(s)
  {
    assert TrimStart(s) == s;
  }

  lemma ParseDigitsOfDigits(n: string, t: string)
    requires |n| >= 1 && AllDigits(n)
    requires t == [] || !IsDigit(t[0])
    ensures ParseDigits(n + t) == Some(DigitsValue(n))
  {
    DigitPrefixOfDigits(n, t);
  }

  // ---------------------------------------------------------------- case, search

  /**
   * The capitals `toLowerCase` folds one for one and that this model covers:
   * ASCII, Latin-1 (but not the multiplication sign), Greek (the code point
   * between Rho and Sigma is unassigned) and basic Cyrillic.
   */
  predicate IsCapital(c: char)
  {
    ('A' <= c <= 'Z') || ('\U{C0}' <= c <= '\U{DE}' && c != '\U{D7}')
    || ('\U{391}' <= c <= '\U{3A9}' && c != '\U{3A2}') || ('\U{400}' <= c <= '\U{42F}')
  }

  /** The small letter of a covered capital; every other character stands for itself. */
  function LowerChar(c: char): (r: char)
    ensures ('A' <= c <= 'Z') ==> r != c && 'a' <= r <= 'z'
    ensures IsCapital(c) ==> r != c && !IsCapital(r)
    ensures !IsCapital(c) ==> r == c
  {
    if '\U{400}' <= c <= '\U{40F}' then (c as int + 80) as char
    else if IsCapital(c) then (c as int + 32) as char
    else c
  }

  /** `toLowerCase` on the covered capitals; it keeps the length and lowers character by character. */
  function ToLower(s: string): (r: string)
    ensures |r| == |s|
    ensures forall k :: 0 <= k < |s| ==> r[k] == LowerChar(s[k])
  {
    if |s| == 0 then "" else [LowerChar(s[0])] + ToLower(s[1..])
  }

  /** `term` occurs in `text` starting at position `i`. */
  predicate OccursAt(text: string, term: string, i: int)
  {
    0 <= i && i + |term| <= |text| && text[i..i + |term|] == term
  }

  /** `text.indexOf(term, from)` for a non-negative start, with `None` for `-1`. */
  function IndexOfFrom(text: string, term: string, from: nat): (r: Option<nat>)
    ensures r.Some? ==> from <= r.value && OccursAt(text, term, r.value)
    ensures r.Some? ==> forall j :: from <= j < r.value ==> !OccursAt(text, term, j)
    ensures r.None? ==> forall j :: from <= j ==> !OccursAt(text, term, j)
    decreases |text| - from
  {
    if from + |term| > |text| then None
    else if text[from..from + |term|] == term then Some(from)
    else IndexOfFrom(text, term, from + 1)
  }
}
