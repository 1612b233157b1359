/**
 * String primitives of the two host languages that the application relies on:
 * Python's `str.replace` with a one-character pattern, `str.isdigit`, `int`,
 * `str` of an integer and `str.strip`, and JavaScript's `String.prototype.trim`,
 * `padStart` and `replace` with a string pattern.
 */
module Text {
  import opened Wrappers

  // ---------------------------------------------------------------------------
  // Substrings
  // ---------------------------------------------------------------------------

  /** `t` occurs in `s` starting at index `i`. */
  predicate OccursAt(s: string, t: string, i: nat) {
    i + |t| <= |s| && s[i..i + |t|] == t
  }

  /** Python's `t in s` for strings. */
  ghost predicate Contains(s: string, t: string) {
    exists i: nat :: OccursAt(s, t, i)
  }

  // ---------------------------------------------------------------------------
  // Python str.replace(c, d) where c and d are single characters
  // ---------------------------------------------------------------------------

  /** Every occurrence of `c` in `s` replaced by `d`, all other characters kept. */
  function ReplaceChar(s: string, c: char, d: char): (r: string)
    ensures |r| == |s|
    ensures forall i :: 0 <= i < |s| ==> r[i] == (if s[i] == c then d else s[i])
  {
    seq(|s|, i requires 0 <= i < |s| => if s[i] == c then d else s[i])
  }

  /** Replacing a character that does not occur changes nothing. */
  lemma ReplaceCharAbsent(s: string, c: char, d: char)
    requires c !in s
    ensures ReplaceChar(s, c, d) == s
  {
    assert forall i :: 0 <= i < |s| ==> s[i] in s;
  }

  /** Replacement works character by character, so it distributes over concatenation. */
  lemma ReplaceCharConcat(a: string, b: string, c: char, d: char)
    ensures ReplaceChar(a + b, c, d) == ReplaceChar(a, c, d) + ReplaceChar(b, c, d)
  {
    var l, r := ReplaceChar(a + b, c, d), ReplaceChar(a, c, d) + ReplaceChar(b, c, d);
    forall i | 0 <= i < |a + b| ensures l[i] == r[i] {
      if i < |a| {
        assert (a + b)[i] == a[i];
      } else {
        assert (a + b)[i] == b[i - |a|];
      }
    }
  }

  // ---------------------------------------------------------------------------
  // Decimal digits: Python str(n), str.isdigit() and int(s)
  // ---------------------------------------------------------------------------

  predicate IsDigitChar(c: char) {
    '0' <= c <= '9'
  }

  /** Python's `s.isdigit()` restricted to ASCII digits: non-empty and all digits. */
  predicate IsDigits(s: string) {
    |s| > 0 && forall i :: 0 <= i < |s| ==> IsDigitChar(s[i])
  }

  function DigitChar(d: nat): (c: char)
    requires d < 10
    ensures IsDigitChar(c)
  {
    ['0', '1', '2', '3', '4', '5', '6', '7', '8', '9'][d]
  }

  function DigitValue(c: char): (d: nat)
    requires IsDigitChar(c)
    ensures d < 10 && DigitChar(d) == c
  {
    (c as int - '0' as int) as nat
  }

  /** Python's `str(n)` for a non-negative integer: its decimal digits, no leading zero. */
  function NatToString(n: nat): (s: string)
    ensures IsDigits(s)
    ensures s[0] == '0' ==> n == 0
  {
    if n < 10 then [DigitChar(n)] else NatToString(n / 10) + [DigitChar(n % 10)]
  }

  /** Python's `str(n)` (JavaScript's `String(n)`) for any integer. */
  function IntToString(n: int): (s: string) {
    if n < 0 then "-" + NatToString(-n) else NatToString(n)
  }

  /** Python's `int(s)` on a string of decimal digits. */
  function ParseDigits(s: string): nat
    requires forall i :: 0 <= i < |s| ==> IsDigitChar(s[i])
  {
    if s == [] then 0 else ParseDigits(s[..|s| - 1]) * 10 + DigitValue(s[|s| - 1])
  }

  /** Parsing the decimal form of a number gives the number back. */
  lemma {:induction false} ParseNatToString(n: nat)
    ensures ParseDigits(NatToString(n)) == n
  {
    if n >= 10 {
      var s := NatToString(n / 10) + [DigitChar(n % 10)];
      assert s[..|s| - 1] == NatToString(n / 10);
      ParseNatToString(n / 10);
    }
  }

  /** The decimal form of an integer is all digits exactly when the integer is not negative. */
  lemma IntToStringIsDigits(n: int)
    ensures IsDigits(IntToString(n)) <==> n >= 0
  {
    if n < 0 {
      assert IntToString(n)[0] == '-';
    }
  }

  // ---------------------------------------------------------------------------
  // Whitespace: Python str.strip() and JavaScript String.prototype.trim()
  // ---------------------------------------------------------------------------

  /** Python's `str.isspace()` for one character. */
  predicate IsPySpace(c: char) {
    ('\U{0009}' <= c <= '\U{000D}') || ('\U{001C}' <= c <= '\U{001F}') || c == ' '
    || c == '\U{0085}' || c == '\U{00A0}' || c == '\U{1680}'
    || ('\U{2000}' <= c <= '\U{200A}') || c == '\U{2028}' || c == '\U{2029}'
    || c == '\U{202F}' || c == '\U{205F}' || c == '\U{3000}'
  }

  /** ECMAScript WhiteSpace and LineTerminator: what `trim` removes and `\s` matches. */
  predicate IsJsSpace(c: char) {
    c == '\U{0009}' || c == '\U{000A}' || c == '\U{000B}' || c == '\U{000C}' || c == '\U{000D}'
    || c == ' ' || c == '\U{00A0}' || c == '\U{1680}' || ('\U{2000}' <= c <= '\U{200A}')
    || c == '\U{2028}' || c == '\U{2029}' || c == '\U{202F}' || c == '\U{205F}'
    || c == '\U{3000}' || c == '\U{FEFF}'
  }

  /** Which language's notion of whitespace a trimming function uses. */
  datatype Whitespace = PyWhitespace | JsWhitespace

  predicate IsSpace(w: Whitespace, c: char) {
    match w
    case PyWhitespace => IsPySpace(c)
    case JsWhitespace => IsJsSpace(c)
  }

  /** `s` without its leading whitespace: what is dropped is whitespace, what is kept does not start with it. */
  function DropLeading(s: string, w: Whitespace): (r: string)
    ensures |r| <= |s|
    ensures forall i :: 0 <= i < |s| - |r| ==> IsSpace(w, s[i])
    ensures r == [] || !IsSpace(w, r[0])
  {
    if s == [] || !IsSpace(w, s[0]) then s else DropLeading(s[1..], w)
  }

  /** What `DropLeading` keeps is a suffix of its input. */
  lemma {:induction false} DropLeadingSuffix(s: string, w: Whitespace)
    ensures DropLeading(s, w) == s[|s| - |DropLeading(s, w)|..]
  {
    if s != [] && IsSpace(w, s[0]) {
      DropLeadingSuffix(s[1..], w);
    }
  }

  /** `s` without its trailing whitespace: what is dropped is whitespace, what is kept does not end with it. */
  function DropTrailing(s: string, w: Whitespace): (r: string)
    ensures |r| <= |s|
    ensures forall i :: |r| <= i < |s| ==> IsSpace(w, s[i])
    ensures r == [] || !IsSpace(w, r[|r| - 1])
  {
    if s == [] || !IsSpace(w, s[|s| - 1]) then s else DropTrailing(s[..|s| - 1], w)
  }

  /** What `DropTrailing` keeps is a prefix of its input. */
  lemma {:induction false} DropTrailingPrefix(s: string, w: Whitespace)
    ensures DropTrailing(s, w) == s[..|DropTrailing(s, w)|]
  {
    if s != [] && IsSpace(w, s[|s| - 1]) {
      DropTrailingPrefix(s[..|s| - 1], w);
    }
  }

  /** Dropping the whitespace at both ends keeps a slice of the input, and only whitespace lies outside it. */
  lemma BothEndsDropped(s: string, w: Whitespace)
    ensures var r := DropTrailing(DropLeading(s, w), w);
      exists i, j :: 0 <= i <= j <= |s| && r == s[i..j]
        && (forall k :: 0 <= k < i ==> IsSpace(w, s[k])) && (forall k :: j <= k < |s| ==> IsSpace(w, s[k]))
  {
    var t := DropLeading(s, w);
    var r := DropTrailing(t, w);
    DropLeadingSuffix(s, w);
    DropTrailingPrefix(t, w);
    var i := |s| - |t|;
    SuffixSlice(s, i, t, |r|, w);
    SliceWitness(s, w, r, i, i + |r|);
  }

  /**
   * Within the suffix `t == s[i..]`, the prefix `t[..n]` is the slice
   * `s[i..i + n]`, and whitespace after it in `t` is whitespace in `s`.
   */
  lemma SuffixSlice(s: string, i: nat, t: string, n: nat, w: Whitespace)
    requires i <= |s| && t == s[i..] && n <= |t|
    requires forall k :: n <= k < |t| ==> IsSpace(w, t[k])
    ensures t[..n] == s[i..i + n]
    ensures forall k :: i + n <= k < |s| ==> IsSpace(w, s[k])
  {
    forall k | i + n <= k < |s|
      ensures IsSpace(w, s[k])
    {
      assert s[k] == t[k - i];
    }
  }

  /** The slice `s[i..j]` with only whitespace around it witnesses the trimming property. */
  lemma SliceWitness(s: string, w: Whitespace, r: string, i: int, j: int)
    requires 0 <= i <= j <= |s| && r == s[i..j]
    requires forall k :: 0 <= k < i ==> IsSpace(w, s[k])
    requires forall k :: j <= k < |s| ==> IsSpace(w, s[k])
    ensures exists i, j :: 0 <= i <= j <= |s| && r == s[i..j]
              && (forall k :: 0 <= k < i ==> IsSpace(w, s[k])) && (forall k :: j <= k < |s| ==> IsSpace(w, s[k]))
  {
  }

  /**
   * Python's `s.strip()`: the input with the whitespace at both of its ends removed and
   * nothing else; the result neither starts nor ends with whitespace.
   */
  function Strip(s: string): (r: string)
    ensures |r| <= |s|
    ensures r == [] || (!IsPySpace(r[0]) && !IsPySpace(r[|r| - 1]))
    ensures exists i, j :: 0 <= i <= j <= |s| && r == s[i..j]
              && (forall k :: 0 <= k < i ==> IsPySpace(s[k])) && (forall k :: j <= k < |s| ==> IsPySpace(s[k]))
  {
    var t := DropLeading(s, PyWhitespace);
    var r := DropTrailing(t, PyWhitespace);
    DropTrailingPrefix(t, PyWhitespace);
    assert r != [] ==> r[0] == t[0];
    BothEndsDropped(s, PyWhitespace);
    r
  }

  /**
   * JavaScript's `s.trim()`: the input with the whitespace at both of its ends removed and
   * nothing else; the result neither starts nor ends with whitespace.
   */
  function Trim(s: string): (r: string)
    ensures |r| <= |s|
    ensures r == [] || (!IsJsSpace(r[0]) && !IsJsSpace(r[|r| - 1]))
    ensures exists i, j :: 0 <= i <= j <= |s| && r == s[i..j]
              && (forall k :: 0 <= k < i ==> IsJsSpace(s[k])) && (forall k :: j <= k < |s| ==> IsJsSpace(s[k]))
  {
    var t := DropLeading(s, JsWhitespace);
    var r := DropTrailing(t, JsWhitespace);
    DropTrailingPrefix(t, JsWhitespace);
    assert r != [] ==> r[0] == t[0];
    BothEndsDropped(s, JsWhitespace);
    r
  }

  // ---------------------------------------------------------------------------
  // JavaScript padStart(n, c) and replace(pattern, replacement) with string pattern
  // ---------------------------------------------------------------------------

  function Repeat(c: char, n: nat): (r: string)
    ensures |r| == n && forall i :: 0 <= i < n ==> r[i] == c
  {
    if n == 0 then [] else [c] + Repeat(c, n - 1)
  }

  /** JavaScript's `s.padStart(n, c)` with a one-character fill string. */
  function PadStart(s: string, n: nat, c: char): (r: string)
    ensures |s| >= n ==> r == s
    ensures |s| < n ==> |r| == n && r[n - |s|..] == s && forall i :: 0 <= i < n - |s| ==> r[i] == c
  {
    if |s| >= n then s else Repeat(c, n - |s|) + s
  }

  /** A number written with at least two digits, zero-padded as `%d`, `%m` and `padStart(2, '0')` do. */
  function Pad2(n: nat): string {
    PadStart(NatToString(n), 2, '0')
  }

  /** A number below 100 written with two digits reads back as itself. */
  lemma Pad2RoundTrip(n: nat)
    requires n < 100
    ensures |Pad2(n)| == 2 && IsDigits(Pad2(n)) && ParseDigits(Pad2(n)) == n
  {
    ParseNatToString(n);
    if n < 10 {
      var p := Pad2(n);
      assert p == "0" + NatToString(n);
      assert p[..1] == "0";
      assert ParseDigits(p) == ParseDigits(p[..1]) * 10 + DigitValue(p[1]);
    } else {
      assert NatToString(n) == NatToString(n / 10) + [DigitChar(n % 10)];
    }
  }

  /** Index of the first occurrence of `pat` in `s` at or after `from`. */
  function FindFrom(s: string, pat: string, from: nat): (r: Option<nat>)
    requires from <= |s|
    ensures r.Some? ==> from <= r.value && OccursAt(s, pat, r.value)
    ensures r.Some? ==> forall j: nat :: from <= j < r.value ==> !OccursAt(s, pat, j)
    ensures r.None? ==> forall j: nat :: from <= j ==> !OccursAt(s, pat, j)
    decreases |s| - from
  {
    if from + |pat| > |s| then None
    else if s[from..from + |pat|] == pat then Some(from)
    else FindFrom(s, pat, from + 1)
  }

  /**
   * JavaScript's `s.replace(pat, rep)` with a string pattern: only the first
   * occurrence is replaced; `rep` is used literally.
   */
  function ReplaceFirst(s: string, pat: string, rep: string): string {
    match FindFrom(s, pat, 0)
    case None => s
    case Some(i) => s[..i] + rep + s[i + |pat|..]
  }

  /**
   * The first occurrence of the pattern is the one replaced: what comes before it
   * does not contain the pattern, and with no occurrence nothing changes.
   */
  lemma ReplaceFirstSplit(s: string, pat: string, rep: string, pre: string, post: string)
    requires s == pre + pat + post
    requires forall j: nat :: j < |pre| ==> !OccursAt(s, pat, j)
    ensures ReplaceFirst(s, pat, rep) == pre + rep + post
  {
    assert OccursAt(s, pat, |pre|) by {
      assert s[|pre|..|pre| + |pat|] == pat;
    }
    var r := FindFrom(s, pat, 0);
    assert r == Some(|pre|);
    assert s[..|pre|] == pre;
    assert s[|pre| + |pat|..] == post;
  }

  /** A pattern cannot start where its first character is absent. */
  lemma NoOccurrenceBefore(s: string, pat: string, n: nat)
    requires |pat| > 0 && n <= |s|
    requires forall j :: 0 <= j < n ==> s[j] != pat[0]
    ensures forall j: nat :: j < n ==> !OccursAt(s, pat, j)
  {
    forall j: nat | j < n ensures !OccursAt(s, pat, j) {
      if j + |pat| <= |s| {
        assert s[j..j + |pat|][0] == s[j];
      }
    }
  }

  /** When the text before a pattern lacks its first character, that occurrence is the one replaced. */
  lemma ReplaceFirstAfter(pre: string, pat: string, rep: string, post: string)
    requires |pat| > 0
    requires forall j :: 0 <= j < |pre| ==> pre[j] != pat[0]
    ensures ReplaceFirst(pre + pat + post, pat, rep) == pre + rep + post
  {
    var s := pre + pat + post;
    assert forall j :: 0 <= j < |pre| ==> s[j] == pre[j];
    NoOccurrenceBefore(s, pat, |pre|);
    ReplaceFirstSplit(s, pat, rep, pre, post);
  }

  lemma ReplaceFirstAbsent(s: string, pat: string, rep: string)
    requires forall j: nat :: !OccursAt(s, pat, j)
    ensures ReplaceFirst(s, pat, rep) == s
  {
  }
}
