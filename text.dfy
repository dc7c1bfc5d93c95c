/**
 * The handful of Python string operations the core relies on: `in` on
 * strings, `str.strip` with and without a character set, ASCII
 * `str.lower`, `str.splitlines`, `str.join` and `str(int)`.
 */
module Text {

  // ---------------------------------------------------------------------
  // `t in s`

  /** `t` occurs in `s` at position `i`. */
  predicate OccursAt(s: string, t: string, i: int) {
    0 <= i && i + |t| <= |s| && s[i..i + |t|] == t
  }

  /** Python's `t in s` for strings. */
  predicate Contains(s: string, t: string) {
    exists i :: 0 <= i <= |s| - |t| && OccursAt(s, t, i)
  }

  /** A piece of a concatenation occurs in it. */
  lemma ContainsPiece(a: string, t: string, b: string)
    ensures Contains(a + t + b, t)
  {
    assert OccursAt(a + t + b, t, |a|);
  }

  lemma ContainsEnd(a: string, t: string)
    ensures Contains(a + t, t)
  {
    assert OccursAt(a + t, t, |a|);
  }

  lemma ContainsStart(t: string, b: string)
    ensures Contains(t + b, t)
  {
    assert OccursAt(t + b, t, 0);
  }

  /** Whatever occurs in a text occurs in anything that text is extended to. */
  lemma ContainsExtended(a: string, t: string, b: string)
    requires Contains(a, t)
    ensures Contains(a + b, t) && Contains(b + a, t)
  {
    var i :| 0 <= i <= |a| - |t| && OccursAt(a, t, i);
    assert (a + b)[i..i + |t|] == a[i..i + |t|];
    assert OccursAt(a + b, t, i);
    assert (b + a)[|b| + i..|b| + i + |t|] == a[i..i + |t|];
    assert OccursAt(b + a, t, |b| + i);
  }

  /** Occurring in a piece of a text is occurring in the text. */
  lemma ContainsTransitive(s: string, u: string, t: string)
    requires Contains(s, u) && Contains(u, t)
    ensures Contains(s, t)
  {
    var i :| 0 <= i <= |s| - |u| && OccursAt(s, u, i);
    assert s[i..i + |u|] == u;
    ContainsWithin(s, t, i, i + |u|);
  }

  /** An occurrence in a part is an occurrence in the whole. */
  lemma ContainsWithin(s: string, t: string, lo: int, hi: int)
    requires 0 <= lo <= hi <= |s| && Contains(s[lo..hi], t)
    ensures Contains(s, t)
  {
    var i :| 0 <= i <= |s[lo..hi]| - |t| && OccursAt(s[lo..hi], t, i);
    forall j | 0 <= j < |t| ensures s[lo + i + j] == t[j] {
      assert t[j] == s[lo..hi][i..i + |t|][j];
    }
    assert s[lo + i..lo + i + |t|] == t;
    assert OccursAt(s, t, lo + i);
  }

  /** An occurrence that lies inside a part is an occurrence in the part. */
  lemma OccursInPart(s: string, t: string, i: int, lo: int, hi: int)
    requires OccursAt(s, t, i) && 0 <= lo <= i && i + |t| <= hi <= |s|
    ensures OccursAt(s[lo..hi], t, i - lo)
  {
    forall j | 0 <= j < |t| ensures s[lo..hi][i - lo + j] == t[j] {
      assert t[j] == s[i..i + |t|][j];
    }
    assert s[lo..hi][i - lo..i - lo + |t|] == t;
  }

  // ---------------------------------------------------------------------
  // `s.strip(chars)`

  /** `s.lstrip(chars)`: the suffix left once leading characters of the set are gone. */
  function StripLeft(s: string, chars: set<char>): (r: string)
    ensures |r| <= |s| && r == s[|s| - |r|..]
    ensures forall k :: 0 <= k < |s| - |r| ==> s[k] in chars
    ensures r != [] ==> r[0] !in chars
    decreases |s|
  {
    if s != [] && s[0] in chars then StripLeft(s[1..], chars) else s
  }

  /** `s.rstrip(chars)`: the prefix left once trailing characters of the set are gone. */
  function StripRight(s: string, chars: set<char>): (r: string)
    ensures |r| <= |s| && r == s[..|r|]
    ensures forall k :: |r| <= k < |s| ==> s[k] in chars
    ensures r != [] ==> r[|r| - 1] !in chars
    decreases |s|
  {
    if s != [] && s[|s| - 1] in chars then StripRight(s[..|s| - 1], chars) else s
  }

  /**
   * `s.strip(chars)`: the one contiguous piece of `s` that neither starts
   * nor ends with a character of the set, everything cut away being in it.
   */
  function StripChars(s: string, chars: set<char>): (r: string)
    ensures exists i :: 0 <= i <= |s| - |r| && CutFrom(s, r, i, chars)
    ensures r != [] ==> r[0] !in chars && r[|r| - 1] !in chars
    ensures Contains(s, r)
  {
    var left := StripLeft(s, chars);
    var r := StripRight(left, chars);
    CutAround(s, left, r, chars);
    r
  }

  /** The piece stripping leaves is cut out of `s` where `lstrip` left off. */
  lemma CutAround(s: string, left: string, r: string, chars: set<char>)
    requires |left| <= |s| && left == s[|s| - |left|..]
    requires forall k :: 0 <= k < |s| - |left| ==> s[k] in chars
    requires |r| <= |left| && r == left[..|r|]
    requires forall k :: |r| <= k < |left| ==> left[k] in chars
    ensures CutFrom(s, r, |s| - |left|, chars) && OccursAt(s, r, |s| - |left|)
  {
    var i := |s| - |left|;
    forall k | i + |r| <= k < |s| ensures s[k] in chars {
      assert s[k] == left[k - i];
    }
    assert r == s[i..i + |r|];
  }

  /** `r` is the piece of `s` at `i`, and everything around it is in the set. */
  predicate CutFrom(s: string, r: string, i: int, chars: set<char>) {
    && 0 <= i <= |s| - |r|
    && r == s[i..i + |r|]
    && (forall k :: 0 <= k < i ==> s[k] in chars)
    && (forall k :: i + |r| <= k < |s| ==> s[k] in chars)
  }

  predicate AllIn(w: string, chars: set<char>) {
    forall k :: 0 <= k < |w| ==> w[k] in chars
  }

  lemma {:induction false} StripLeftPadded(w: string, s: string, chars: set<char>)
    requires AllIn(w, chars)
    ensures StripLeft(w + s, chars) == StripLeft(s, chars)
    decreases |w|
  {
    if w != [] {
      assert (w + s)[0] == w[0] && (w + s)[1..] == w[1..] + s;
      StripLeftPadded(w[1..], s, chars);
    } else {
      assert w + s == s;
    }
  }

  lemma {:induction false} StripRightPadded(s: string, w: string, chars: set<char>)
    requires AllIn(w, chars)
    ensures StripRight(s + w, chars) == StripRight(s, chars)
    decreases |w|
  {
    if w != [] {
      var n := |s + w|;
      assert (s + w)[n - 1] == w[|w| - 1] && (s + w)[..n - 1] == s + w[..|w| - 1];
      StripRightPadded(s, w[..|w| - 1], chars);
    } else {
      assert s + w == s;
    }
  }

  /** Stripping the front of `s + w` stops inside `s` unless all of `s` goes. */
  lemma {:induction false} StripLeftAppend(s: string, w: string, chars: set<char>)
    ensures StripLeft(s + w, chars)
         == if StripLeft(s, chars) == [] then StripLeft(w, chars) else StripLeft(s, chars) + w
    decreases |s|
  {
    if s == [] {
      assert s + w == w;
    } else {
      assert (s + w)[0] == s[0] && (s + w)[1..] == s[1..] + w;
      StripLeftAppend(s[1..], w, chars);
    }
  }

  /** Characters of the set around a text make no difference to `strip`. */
  lemma StripCharsPadded(w1: string, s: string, w2: string, chars: set<char>)
    requires AllIn(w1, chars) && AllIn(w2, chars)
    ensures StripChars(w1 + s + w2, chars) == StripChars(s, chars)
  {
    assert w1 + s + w2 == w1 + (s + w2);
    StripLeftPadded(w1, s + w2, chars);
    StripLeftAppend(s, w2, chars);
    if StripLeft(s, chars) == [] {
      StripLeftPadded(w2, [], chars);
      assert w2 + [] == w2;
    } else {
      StripRightPadded(StripLeft(s, chars), w2, chars);
    }
  }

  /** Cutting a piece out of a piece is one cut, of the characters of either set. */
  lemma CutCompose(s: string, u: string, r: string, i: int, j: int, c1: set<char>, c2: set<char>)
    requires CutFrom(s, u, i, c1) && CutFrom(u, r, j, c2)
    ensures CutFrom(s, r, i + j, c1 + c2)
  {
    forall k | i <= k < i + j ensures s[k] in c2 {
      assert s[k] == u[k - i];
    }
    forall k | i + j + |r| <= k < i + |u| ensures s[k] in c2 {
      assert s[k] == u[k - i];
    }
    forall k | 0 <= k < |r| ensures r[k] == s[i + j + k] {
      assert r[k] == u[j + k];
    }
    assert r == s[i + j..i + j + |r|];
  }

  /** What a cut leaves around its piece is all in the set. */
  lemma CutPadding(s: string, r: string, i: int, chars: set<char>)
    requires CutFrom(s, r, i, chars)
    ensures AllIn(s[..i], chars) && AllIn(s[i + |r|..], chars)
  {
    var head, tail := s[..i], s[i + |r|..];
    forall k | 0 <= k < |head| ensures head[k] in chars {
      assert head[k] == s[k];
    }
    forall k | 0 <= k < |tail| ensures tail[k] in chars {
      assert tail[k] == s[i + |r| + k];
    }
  }

  /** A text that neither starts nor ends with a character of the set is its own strip. */
  lemma StripCharsClean(s: string, chars: set<char>)
    requires s != [] && s[0] !in chars && s[|s| - 1] !in chars
    ensures StripChars(s, chars) == s
  {
    assert StripLeft(s, chars) == s;
    assert StripRight(s, chars) == s;
  }

  /** The characters `str.isspace` accepts, which a bare `s.strip()` removes. */
  const PyWhitespace: set<char> := {
    '\t', '\n', '\U{0B}', '\U{0C}', '\r', '\U{1C}', '\U{1D}', '\U{1E}', '\U{1F}', ' ',
    '\U{85}', '\U{A0}', '\U{1680}',
    '\U{2000}', '\U{2001}', '\U{2002}', '\U{2003}', '\U{2004}', '\U{2005}',
    '\U{2006}', '\U{2007}', '\U{2008}', '\U{2009}', '\U{200A}',
    '\U{2028}', '\U{2029}', '\U{202F}', '\U{205F}', '\U{3000}'
  }

  /** `s.strip()`. */
  function Strip(s: string): string {
    StripChars(s, PyWhitespace)
  }

  // ---------------------------------------------------------------------
  // `s.lower()` on ASCII letters

  function LowerChar(c: char): (r: char)
    ensures 'A' <= c <= 'Z' ==> 'a' <= r <= 'z'
    ensures !('A' <= c <= 'Z') ==> r == c
  {
    if 'A' <= c <= 'Z' then (c as int - 'A' as int + 'a' as int) as char else c
  }

  /** `s.lower()`, upper-case ASCII letters only. */
  function Lower(s: string): (r: string)
    ensures |r| == |s|
    ensures forall k :: 0 <= k < |s| ==> r[k] == LowerChar(s[k])
  {
    seq(|s|, k requires 0 <= k < |s| => LowerChar(s[k]))
  }

  // ---------------------------------------------------------------------
  // `s.splitlines()`

  /** The line boundaries of `str.splitlines`; "\r\n" counts as one. */
  const LineBreaks: set<char> := {
    '\n', '\r', '\U{0B}', '\U{0C}', '\U{1C}', '\U{1D}', '\U{1E}', '\U{85}', '\U{2028}', '\U{2029}'
  }

  /** Index of the first line break in `s`, or `|s|`. */
  function FirstBreak(s: string): (k: nat)
    ensures k <= |s|
    ensures forall j :: 0 <= j < k ==> s[j] !in LineBreaks
    ensures k < |s| ==> s[k] in LineBreaks
    decreases |s|
  {
    if s == [] || s[0] in LineBreaks then 0 else 1 + FirstBreak(s[1..])
  }

  /** How many characters the break at `k` takes: two for "\r\n", else one. */
  function BreakWidth(s: string, k: nat): nat
    requires k < |s|
  {
    if s[k] == '\r' && k + 1 < |s| && s[k + 1] == '\n' then 2 else 1
  }

  /** `s.splitlines()`: the lines without their breaks; a final break opens no empty line. */
  function SplitLines(s: string): seq<string>
    decreases |s|
  {
    if s == [] then []
    else
      var k := FirstBreak(s);
      if k == |s| then [s]
      else [s[..k]] + SplitLines(s[k + BreakWidth(s, k)..])
  }

  predicate NoLineBreak(t: string) {
    forall j :: 0 <= j < |t| ==> t[j] !in LineBreaks
  }

  /** A line is the text up to its first break, or a line of what follows that break. */
  lemma LineOfSplit(s: string, line: string)
    requires line in SplitLines(s)
    ensures FirstBreak(s) == |s| ==> line == s
    ensures FirstBreak(s) < |s| ==>
      line == s[..FirstBreak(s)] || line in SplitLines(s[FirstBreak(s) + BreakWidth(s, FirstBreak(s))..])
  {
  }

  /** An occurrence in a prefix or a suffix is an occurrence in the text. */
  lemma ContainsInPrefix(s: string, t: string, k: int)
    requires 0 <= k <= |s| && Contains(s[..k], t)
    ensures Contains(s, t)
  {
    assert s[0..k] == s[..k];
    ContainsWithin(s, t, 0, k);
  }

  lemma ContainsInSuffix(s: string, t: string, j: int)
    requires 0 <= j <= |s| && Contains(s[j..], t)
    ensures Contains(s, t)
  {
    assert s[j..|s|] == s[j..];
    ContainsWithin(s, t, j, |s|);
  }

  /** Every line is a piece of the text, so whatever a line contains the text contains. */
  lemma {:induction false} LineContainsInText(s: string, t: string, line: string)
    requires line in SplitLines(s) && Contains(line, t)
    ensures Contains(s, t)
    decreases |s|
  {
    LineOfSplit(s, line);
    var k := FirstBreak(s);
    if k < |s| {
      var j := k + BreakWidth(s, k);
      if line == s[..k] {
        ContainsInPrefix(s, t, k);
      } else {
        LineContainsInText(s[j..], t, line);
        ContainsInSuffix(s, t, j);
      }
    }
  }

  /** An occurrence of a text without line breaks lies wholly before or wholly after a break. */
  lemma OccurrenceAvoidsBreak(s: string, t: string, i: int, k: int)
    requires OccursAt(s, t, i) && NoLineBreak(t) && 0 <= k < |s| && s[k] in LineBreaks
    ensures i + |t| <= k || k < i
  {
    assert forall j :: i <= j < i + |t| ==> s[j] == s[i..i + |t|][j - i] == t[j - i];
  }

  /** Past the first break, the lines are those of what follows the break. */
  lemma SplitLinesAfterBreak(s: string, k: nat)
    requires k == FirstBreak(s) && k < |s|
    ensures SplitLines(s) == [s[..k]] + SplitLines(s[k + BreakWidth(s, k)..])
  {
  }

  /** An occurrence of a break-free text that ends past the first break lies wholly after that break. */
  lemma OccurrenceAfterBreak(s: string, t: string, i: int, k: nat)
    requires 0 <= i <= |s| - |t| && OccursAt(s, t, i) && t != [] && NoLineBreak(t)
    requires k < |s| && s[k] in LineBreaks && k < i + |t|
    ensures Contains(s[k + BreakWidth(s, k)..], t)
  {
    var w := BreakWidth(s, k);
    OccurrenceAvoidsBreak(s, t, i, k);
    if w == 2 {
      OccurrenceAvoidsBreak(s, t, i, k + 1);
    }
    OccursInPart(s, t, i, k + w, |s|);
    assert s[k + w..|s|] == s[k + w..];
  }

  /** A text without line breaks occurs within one line of any text holding it. */
  lemma {:induction false} TextContainsInLine(s: string, t: string)
    requires Contains(s, t) && t != [] && NoLineBreak(t)
    ensures exists line :: line in SplitLines(s) && Contains(line, t)
    decreases |s|
  {
    var i :| 0 <= i <= |s| - |t| && OccursAt(s, t, i);
    var k := FirstBreak(s);
    if k == |s| {
      assert SplitLines(s) == [s];
      assert s in SplitLines(s);
    } else {
      SplitLinesAfterBreak(s, k);
      if i + |t| <= k {
        OccursInPart(s, t, i, 0, k);
        assert s[0..k] == s[..k];
        assert s[..k] in SplitLines(s);
      } else {
        var rest := s[k + BreakWidth(s, k)..];
        OccurrenceAfterBreak(s, t, i, k);
        TextContainsInLine(rest, t);
        var line :| line in SplitLines(rest) && Contains(line, t);
        assert line in SplitLines(s);
      }
    }
  }

  // ---------------------------------------------------------------------
  // `sep.join(parts)`

  function Join(sep: string, parts: seq<string>): string
    decreases |parts|
  {
    if parts == [] then ""
    else if |parts| == 1 then parts[0]
    else parts[0] + sep + Join(sep, parts[1..])
  }

  /** Joining two non-empty runs of parts puts one separator between their joins. */
  lemma {:induction false} JoinAppend(sep: string, a: seq<string>, b: seq<string>)
    requires a != [] && b != []
    ensures Join(sep, a + b) == Join(sep, a) + sep + Join(sep, b)
    decreases |a|
  {
    assert (a + b)[0] == a[0] && (a + b)[1..] == a[1..] + b;
    if |a| > 1 {
      JoinAppend(sep, a[1..], b);
    }
  }

  /** Each part of a join occurs in it. */
  lemma {:induction false} JoinContainsParts(sep: string, parts: seq<string>, j: nat)
    requires j < |parts|
    ensures Contains(Join(sep, parts), parts[j])
    decreases |parts|
  {
    if |parts| == 1 {
      ContainsPiece("", parts[0], "");
      assert "" + parts[0] + "" == parts[0];
    } else if j == 0 {
      ContainsPiece("", parts[0], sep + Join(sep, parts[1..]));
      assert "" + parts[0] + (sep + Join(sep, parts[1..])) == Join(sep, parts);
    } else {
      var tail := Join(sep, parts[1..]);
      JoinContainsParts(sep, parts[1..], j - 1);
      assert Join(sep, parts) == (parts[0] + sep) + tail;
      assert Join(sep, parts)[|parts[0] + sep|..|Join(sep, parts)|] == tail;
      ContainsWithin(Join(sep, parts), parts[j], |parts[0] + sep|, |Join(sep, parts)|);
    }
  }

  // ---------------------------------------------------------------------
  // `str(n)` for integers

  predicate IsDigit(c: char) {
    '0' <= c <= '9'
  }

  predicate AllDigits(s: string) {
    forall k :: 0 <= k < |s| ==> IsDigit(s[k])
  }

  function DigitChar(d: nat): (c: char)
    requires d < 10
    ensures IsDigit(c) && c as int - '0' as int == d
  {
    ('0' as int + d) as char
  }

  /** The number a string of decimal digits denotes. */
  function DigitsValue(s: string): nat
    requires AllDigits(s)
    decreases |s|
  {
    if s == [] then 0
    else 10 * DigitsValue(s[..|s| - 1]) + (s[|s| - 1] as int - '0' as int)
  }

  /** The decimal digits of `n`, without leading zeros. */
  function NatToString(n: nat): (r: string)
    ensures r != [] && AllDigits(r)
    ensures DigitsValue(r) == n
    ensures r[0] == '0' ==> n == 0 && r == "0"
    decreases n
  {
    if n < 10 then [DigitChar(n)]
    else
      var front := NatToString(n / 10);
      var r := front + [DigitChar(n % 10)];
      assert r[..|r| - 1] == front;
      r
  }

  /** `str(i)` of a Python `int`. */
  function IntToString(i: int): (r: string)
    ensures r != []
    ensures i >= 0 ==> AllDigits(r) && DigitsValue(r) == i
    ensures i < 0 ==> r[0] == '-' && AllDigits(r[1..]) && DigitsValue(r[1..]) == -i
    ensures i >= 0 ==> r[0] != '0' || r == "0"
    ensures i < 0 ==> |r| >= 2 && r[1] != '0'
  {
    if i < 0 then "-" + NatToString(-i) else NatToString(i)
  }
}
