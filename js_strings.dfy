/**
 * The handful of JavaScript string primitives the core relies on, with the
 * semantics of the ECMAScript built-ins: `indexOf`, `slice` (for non-negative
 * arguments), `split` and `join` on a one-character separator, and `trim`.
 */
module JsStrings {

  /** WhiteSpace and LineTerminator code points, the characters `trim` removes. */
  predicate IsWhitespace(c: char)
  {
    || c == '\t' || c == '\U{000B}' || c == '\U{000C}' || c == ' '
    || c == '\U{00A0}' || c == '\U{FEFF}' || c == '\U{1680}'
    || ('\U{2000}' <= c <= '\U{200A}') || c == '\U{202F}' || c == '\U{205F}' || c == '\U{3000}'
    || c == '\n' || c == '\r' || c == '\U{2028}' || c == '\U{2029}'
  }

  /** Leading whitespace removed. */
  function TrimStart(s: string): (r: string)
    ensures |r| <= |s| && r == s[|s| - |r|..]
    ensures forall i {:trigger IsWhitespace(s[i])} :: 0 <= i < |s| - |r| ==> IsWhitespace(s[i])
    ensures r == [] || !IsWhitespace(r[0])
    decreases |s|
  {
    if |s| > 0 && IsWhitespace(s[0]) then TrimStart(s[1..]) else s
  }

  /** Trailing whitespace removed. */
  function TrimEnd(s: string): (r: string)
    ensures |r| <= |s| && r == s[..|r|]
    ensures forall i {:trigger IsWhitespace(s[i])} :: |r| <= i < |s| ==> IsWhitespace(s[i])
    ensures r == [] || !IsWhitespace(r[|r| - 1])
    decreases |s|
  {
    if |s| > 0 && IsWhitespace(s[|s| - 1]) then TrimEnd(s[..|s| - 1]) else s
  }

  /** `r` is `s` with exactly the `k` leading and some trailing whitespace characters removed. */
  predicate TrimmedAt(s: string, r: string, k: int)
  {
    0 <= k <= |s| - |r| && r == s[k..k + |r|]
    && (forall i {:trigger IsWhitespace(s[i])} :: 0 <= i < k ==> IsWhitespace(s[i]))
    && (forall i {:trigger IsWhitespace(s[i])} :: k + |r| <= i < |s| ==> IsWhitespace(s[i]))
  }

  /** `String.prototype.trim`. */
  function Trim(s: string): (r: string)
    ensures |r| <= |s|
    ensures r == [] || (!IsWhitespace(r[0]) && !IsWhitespace(r[|r| - 1]))
  {
    TrimEnd(TrimStart(s))
  }

  /** Trimming removes whitespace from both ends and nothing else. */
  lemma TrimRemovesEnds(s: string)
    ensures exists k :: TrimmedAt(s, Trim(s), k)
  {
    var t := TrimStart(s);
    assert TrimmedAt(s, Trim(s), |s| - |t|);
  }

  /** A string that starts and ends with non-whitespace is its own trim. */
  lemma TrimKeeps(s: string)
    requires |s| > 0 && !IsWhitespace(s[0]) && !IsWhitespace(s[|s| - 1])
    ensures Trim(s) == s
  {
  }

  /** One leading space is trimmed away. */
  lemma TrimLeadingSpace(s: string)
    requires |s| > 0 && !IsWhitespace(s[0]) && !IsWhitespace(s[|s| - 1])
    ensures Trim([' '] + s) == s
  {
    assert ([' '] + s)[1..] == s;
  }

  /** `needle` occurs in `s` at position `i`. */
  predicate MatchAt(s: string, needle: string, i: int)
  {
    0 <= i && i + |needle| <= |s| && s[i..i + |needle|] == needle
  }

  function Clamp(from: int, len: nat): (k: nat)
    ensures k <= len
  {
    if from < 0 then 0 else if from > len then len else from
  }

  /**
   * `s.indexOf(needle, from)`: the first position at or after `from` (clamped to
   * the string) where `needle` occurs, or -1.
   */
  function IndexOf(s: string, needle: string, from: int): (r: int)
    ensures r == -1 || (Clamp(from, |s|) <= r && MatchAt(s, needle, r))
    ensures forall i :: Clamp(from, |s|) <= i && (r == -1 || i < r) ==> !MatchAt(s, needle, i)
  {
    IndexFrom(s, needle, Clamp(from, |s|))
  }

  function IndexFrom(s: string, needle: string, i: nat): (r: int)
    requires i <= |s|
    ensures r == -1 || (i <= r && MatchAt(s, needle, r))
    ensures forall j :: i <= j && (r == -1 || j < r) ==> !MatchAt(s, needle, j)
    decreases |s| - i
  {
    if i + |needle| > |s| then -1
    else if s[i..i + |needle|] == needle then i
    else if i == |s| then -1
    else IndexFrom(s, needle, i + 1)
  }

  /** `s.slice(b, e)` for non-negative arguments: both ends are clamped to the string. */
  function Slice(s: string, b: nat, e: nat): (r: string)
    ensures b <= e <= |s| ==> r == s[b..e]
    ensures e <= b ==> r == []
    ensures b <= |s| <= e ==> r == s[b..]
    ensures |s| <= b ==> r == []
  {
    var b' := if b < |s| then b else |s|;
    var e' := if e < |s| then e else |s|;
    if b' < e' then s[b'..e'] else []
  }

  /** `parts.join(sep)`. */
  function JoinWith(parts: seq<string>, sep: char): string
  {
    if |parts| == 0 then ""
    else if |parts| == 1 then parts[0]
    else parts[0] + [sep] + JoinWith(parts[1..], sep)
  }

  /**
   * `s.split(sep)` for a one-character separator: the pieces between successive
   * separators, so at least one (possibly empty) piece, none containing `sep`,
   * and joining them back with `sep` gives `s` again.
   */
  function Split(s: string, sep: char): (parts: seq<string>)
    ensures |parts| >= 1
    ensures forall i :: 0 <= i < |parts| ==> sep !in parts[i]
    ensures JoinWith(parts, sep) == s
    decreases |s|
  {
    if |s| == 0 then [""]
    else
      var rest := Split(s[1..], sep);
      if s[0] == sep then
        [""] + rest
      else
        var parts := [[s[0]] + rest[0]] + rest[1..];
        assert JoinWith(parts, sep) == [s[0]] + JoinWith(rest, sep);
        assert s == [s[0]] + s[1..];
        parts
  }

  /** A string without the separator is one piece. */
  lemma {:induction false} SplitWithout(s: string, sep: char)
    requires sep !in s
    ensures Split(s, sep) == [s]
    decreases |s|
  {
    if |s| > 0 {
      assert sep !in s[1..];
      SplitWithout(s[1..], sep);
      assert [s[0]] + s[1..] == s;
    }
  }

  /** Splitting at one separator occurrence splits each side independently. */
  lemma {:induction false} SplitAround(a: string, sep: char, b: string)
    ensures Split(a + [sep] + b, sep) == Split(a, sep) + Split(b, sep)
    decreases |a|
  {
    var s := a + [sep] + b;
    if |a| == 0 {
      assert s == [sep] + b;
      assert s[1..] == b;
    } else {
      assert s[1..] == a[1..] + [sep] + b;
      SplitAround(a[1..], sep, b);
    }
  }

  /**
   * Re-joining every piece after the first gives exactly the text after the
   * first separator: `s.split(sep).slice(1).join(sep)` keeps later separators.
   */
  lemma AfterFirstSeparator(s: string, sep: char)
    requires |Split(s, sep)| >= 2
    ensures var p := Split(s, sep);
            |p[0]| < |s| && s[|p[0]|] == sep && sep !in p[0]
            && JoinWith(p[1..], sep) == s[|p[0]| + 1..]
  {
    var p := Split(s, sep);
    assert s == p[0] + [sep] + JoinWith(p[1..], sep);
    assert s[|p[0]| + 1..] == JoinWith(p[1..], sep);
  }
}
