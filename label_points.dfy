/**
 * `extractPoint` of src/customFunctions/joinIssues.ts: pull one story-point
 * token `prefix + number` out of a comma-joined label string.
 *
 * The match is a plain substring search (it is not aligned to label
 * boundaries), and the numeric text runs up to the next comma after the match.
 * When a comma follows the match, the text from the match up to and including
 * that comma is cut out, so text before a match inside a label joins the next
 * label. When none follows, the match and the one character before it are
 * dropped (all of the labels when the match is at position 0), whether or not
 * that character is a comma.
 */
module LabelPoints {
  import opened JsStrings

  /**
   * The value of `Number(text)` for the sliced numeric text, left unevaluated,
   * or the literal `NaN` the source returns when the prefix is absent.
   */
  datatype Point = NaN | NumberOf(text: string)

  datatype Extraction = Extraction(newLabels: string, point: Point)

  function ExtractPoint(labels: string, prefix: string): Extraction
  {
    var start := IndexOf(labels, prefix, 0);
    if start < 0 then
      Extraction(labels, NaN)
    else
      var nextComma := IndexOf(labels, ",", start + 1);
      var end: nat := if nextComma >= 0 then nextComma else |labels| + 1;
      var point := NumberOf(Slice(labels, start + |prefix|, end));
      var newLabels :=
        if nextComma >= 0 then Slice(labels, 0, start) + Slice(labels, end + 1, |labels| + 1)
        else if start == 0 then ""
        else Slice(labels, 0, start - 1);
      Extraction(newLabels, point)
  }

  /** Extraction never lengthens the labels, and a `NaN` point leaves them unchanged. */
  lemma ExtractPointShrinks(labels: string, prefix: string)
    ensures |ExtractPoint(labels, prefix).newLabels| <= |labels|
    ensures ExtractPoint(labels, prefix).point == NaN ==> ExtractPoint(labels, prefix).newLabels == labels
  {
  }

  /** `k` is the first position at which `prefix` occurs in `s`. */
  predicate FirstOccurrence(s: string, prefix: string, k: int)
  {
    MatchAt(s, prefix, k) && forall i :: 0 <= i < k ==> !MatchAt(s, prefix, i)
  }

  /** `c` is the first comma strictly after position `start`. */
  predicate FirstCommaAfter(s: string, start: nat, c: int)
  {
    start < c < |s| && s[c] == ',' && forall j :: start < j < c ==> s[j] != ','
  }

  /** No comma follows position `start`. */
  predicate NoCommaAfter(s: string, start: nat)
  {
    forall j :: start < j < |s| ==> s[j] != ','
  }

  lemma CommaMatch(s: string, j: int)
    ensures MatchAt(s, ",", j) <==> 0 <= j < |s| && s[j] == ','
  {
    if 0 <= j < |s| {
      assert s[j..j + 1] == [s[j]];
    }
  }

  lemma FirstOccurrenceFound(s: string, prefix: string, k: int)
    requires FirstOccurrence(s, prefix, k)
    ensures IndexOf(s, prefix, 0) == k
  {
  }

  lemma FirstCommaFound(s: string, start: nat, c: int)
    requires start < |s| && FirstCommaAfter(s, start, c)
    ensures IndexOf(s, ",", start + 1) == c
  {
    CommaMatch(s, c);
    var r := IndexOf(s, ",", start + 1);
    if r >= 0 {
      CommaMatch(s, r);
    }
  }

  lemma NoCommaFound(s: string, start: nat)
    requires start < |s| && NoCommaAfter(s, start)
    ensures IndexOf(s, ",", start + 1) == -1
  {
    var r := IndexOf(s, ",", start + 1);
    if r >= 0 {
      CommaMatch(s, r);
    }
  }

  /** Prefix absent: the labels come back unchanged and the point is `NaN`; and only then is it `NaN`. */
  lemma ExtractPointAbsent(labels: string, prefix: string)
    ensures ExtractPoint(labels, prefix).point == NaN <==> forall i :: !MatchAt(labels, prefix, i)
    ensures (forall i :: !MatchAt(labels, prefix, i)) ==> ExtractPoint(labels, prefix).newLabels == labels
  {
    var start := IndexOf(labels, prefix, 0);
    if start >= 0 {
      assert MatchAt(labels, prefix, start);
    }
  }

  /**
   * A token followed by a comma: the text from the token's start up to and
   * including that comma is cut out, and the point is the text between the
   * prefix and the comma.
   */
  lemma ExtractPointBeforeComma(labels: string, prefix: string, start: nat, c: int)
    requires FirstOccurrence(labels, prefix, start) && FirstCommaAfter(labels, start, c)
    ensures ExtractPoint(labels, prefix)
         == Extraction(labels[..start] + labels[c + 1..], NumberOf(Slice(labels, start + |prefix|, c)))
  {
    FirstOccurrenceFound(labels, prefix, start);
    FirstCommaFound(labels, start, c);
  }

  /**
   * A token with no comma after it: the point is the rest of the string, and
   * the result is empty when the token starts the string; otherwise the token
   * and the one character before it are dropped.
   */
  lemma ExtractPointAtEnd(labels: string, prefix: string, start: nat)
    requires FirstOccurrence(labels, prefix, start) && NoCommaAfter(labels, start)
    ensures ExtractPoint(labels, prefix)
         == Extraction(if start == 0 then "" else labels[..start - 1],
                       NumberOf(labels[start + |prefix|..]))
  {
    FirstOccurrenceFound(labels, prefix, start);
    if start < |labels| {
      NoCommaFound(labels, start);
    } else {
      assert prefix == [];
      assert IndexOf(labels, ",", start + 1) == -1;
    }
  }

  /**
   * Round trip for a well-formed label list: with a non-empty prefix that has no
   * comma, occurring first at the start of a label, the removed token is
   * `prefix + text` where the point is `Number(text)`, and putting the token back
   * (with the comma that was cut) at its position reproduces the labels.
   */
  lemma ExtractPointRoundTrip(labels: string, prefix: string, start: nat)
    requires |prefix| > 0 && ',' !in prefix
    requires FirstOccurrence(labels, prefix, start)
    requires start == 0 || labels[start - 1] == ','
    ensures var r := ExtractPoint(labels, prefix);
            && r.point.NumberOf? && ',' !in r.point.text
            && var token := prefix + r.point.text;
            && (!NoCommaAfter(labels, start) ==>
                  start <= |r.newLabels| && labels == r.newLabels[..start] + token + "," + r.newLabels[start..])
            && (NoCommaAfter(labels, start) ==>
                  labels == if start == 0 then token else r.newLabels + "," + token)
  {
    var c := IndexOf(labels, ",", start + 1);
    if c == -1 {
      forall j | start < j < |labels| ensures labels[j] != ',' {
        CommaMatch(labels, j);
      }
      RoundTripAtEnd(labels, prefix, start);
    } else {
      CommaMatch(labels, c);
      forall j | start < j < c ensures labels[j] != ',' {
        CommaMatch(labels, j);
      }
      RoundTripBeforeComma(labels, prefix, start, c);
    }
  }

  lemma RoundTripAtEnd(labels: string, prefix: string, start: nat)
    requires |prefix| > 0
    requires FirstOccurrence(labels, prefix, start) && NoCommaAfter(labels, start)
    requires start == 0 || labels[start - 1] == ','
    ensures var r := ExtractPoint(labels, prefix);
            && r.point.NumberOf? && ',' !in r.point.text
            && var token := prefix + r.point.text;
            && labels == if start == 0 then token else r.newLabels + "," + token
  {
    ExtractPointAtEnd(labels, prefix, start);
    ReassembleAtEnd(labels, prefix, start);
  }

  lemma ReassembleAtEnd(labels: string, prefix: string, start: nat)
    requires |prefix| > 0 && MatchAt(labels, prefix, start) && NoCommaAfter(labels, start)
    requires start == 0 || labels[start - 1] == ','
    ensures var text := labels[start + |prefix|..];
            && ',' !in text
            && labels == if start == 0 then prefix + text else labels[..start - 1] + "," + (prefix + text)
  {
    var text := labels[start + |prefix|..];
    assert labels[start..start + |prefix|] == prefix;
    assert labels[start..] == prefix + text;
    assert ',' !in text by {
      forall j | 0 <= j < |text| ensures text[j] != ',' {
        assert text[j] == labels[start + |prefix| + j];
      }
    }
    if start > 0 {
      assert labels == labels[..start - 1] + "," + labels[start..];
    } else {
      assert labels == labels[start..];
    }
  }

  lemma RoundTripBeforeComma(labels: string, prefix: string, start: nat, c: int)
    requires |prefix| > 0 && ',' !in prefix
    requires FirstOccurrence(labels, prefix, start) && FirstCommaAfter(labels, start, c)
    ensures var r := ExtractPoint(labels, prefix);
            && r.point.NumberOf? && ',' !in r.point.text
            && var token := prefix + r.point.text;
            && start <= |r.newLabels|
            && labels == r.newLabels[..start] + token + "," + r.newLabels[start..]
  {
    ReassembleBeforeComma(labels, prefix, start, c);
    ExtractPointBeforeComma(labels, prefix, start, c);
  }

  lemma ReassembleBeforeComma(labels: string, prefix: string, start: nat, c: int)
    requires |prefix| > 0 && ',' !in prefix
    requires MatchAt(labels, prefix, start) && FirstCommaAfter(labels, start, c)
    ensures start + |prefix| <= c
    ensures var rest := labels[..start] + labels[c + 1..];
            var text := labels[start + |prefix|..c];
            && ',' !in text && start <= |rest|
            && labels == rest[..start] + (prefix + text) + "," + rest[start..]
  {
    var p := |prefix|;
    assert labels[start..start + p] == prefix;
    var rest := labels[..start] + labels[c + 1..];
    var text := labels[start + p..c];
    assert ',' !in text by {
      forall j | 0 <= j < |text| ensures text[j] != ',' {
        assert text[j] == labels[start + p + j];
      }
    }
    assert rest[..start] == labels[..start];
    assert rest[start..] == labels[c + 1..];
    CutAround(labels, start, start + p, c);
    assert labels[start..start + p] == prefix && labels[start + p..c] == text && [labels[c]] == ",";
    ConcatAssoc(labels[..start], prefix, text);
  }

  lemma ConcatAssoc(a: string, b: string, c: string)
    ensures a + (b + c) == a + b + c
  {
  }

  lemma CutAround(s: string, i: nat, j: nat, k: nat)
    requires i <= j <= k < |s|
    ensures s == s[..i] + s[i..j] + s[j..k] + [s[k]] + s[k + 1..]
  {
    assert s[..k] == s[..i] + s[i..j] + s[j..k];
    assert s == s[..k] + [s[k]] + s[k + 1..];
  }

  /** `k` is the first occurrence when the prefix's first character does not appear before it. */
  lemma FirstOccurrenceAt(s: string, prefix: string, k: nat)
    requires |prefix| > 0 && MatchAt(s, prefix, k) && prefix[0] !in s[..k]
    ensures FirstOccurrence(s, prefix, k)
  {
  }

  /**
   * A token `prefix + t` whose prefix starts nowhere earlier, followed by a
   * comma: the token and that comma are cut and the point is `t`.
   */
  lemma TokenBeforeComma(a: string, prefix: string, t: string, b: string)
    requires |prefix| > 0 && prefix[0] !in a && ',' !in prefix && ',' !in t
    ensures ExtractPoint(a + prefix + t + "," + b, prefix) == Extraction(a + b, NumberOf(t))
  {
    var s := a + prefix + t + "," + b;
    var start, c := |a|, |a| + |prefix| + |t|;
    assert s[..start] == a && s[start..start + |prefix|] == prefix;
    assert s[start + |prefix|..c] == t && s[c] == ',' && s[c + 1..] == b;
    FirstOccurrenceAt(s, prefix, start);
    forall j | start < j < c
      ensures s[j] != ','
    {
      if j < start + |prefix| {
        assert s[j] == prefix[j - start];
      } else {
        assert s[j] == t[j - start - |prefix|];
      }
    }
    ExtractPointBeforeComma(s, prefix, start, c);
  }

  /**
   * A token `prefix + t` at the end, its prefix starting nowhere earlier: the
   * labels lose the token and the one character before it, and the point is `t`.
   */
  lemma TokenAtEnd(a: string, prefix: string, t: string)
    requires |prefix| > 0 && prefix[0] !in a && ',' !in prefix && ',' !in t
    ensures ExtractPoint(a + prefix + t, prefix)
         == Extraction(if |a| == 0 then "" else a[..|a| - 1], NumberOf(t))
  {
    var s := a + prefix + t;
    var start := |a|;
    assert s[..start] == a && s[start..start + |prefix|] == prefix && s[start + |prefix|..] == t;
    FirstOccurrenceAt(s, prefix, start);
    forall j | start < j < |s|
      ensures s[j] != ','
    {
      if j < start + |prefix| {
        assert s[j] == prefix[j - start];
      } else {
        assert s[j] == t[j - start - |prefix|];
      }
    }
    ExtractPointAtEnd(s, prefix, start);
    if start > 0 {
      assert s[..start - 1] == a[..|a| - 1];
    }
  }

  /**
   * A token `prefix + t` at the end, where the prefix's first character occurs
   * once earlier (between `x` and `y`) but is not followed there by the prefix's
   * second character: as in `TokenAtEnd`, the token and the one character before
   * it are dropped and the point is `t`.
   */
  lemma TokenAtEndPastNearMiss(x: string, y: string, prefix: string, t: string)
    requires |prefix| > 1 && |y| > 0 && prefix[0] !in x && prefix[0] !in y && y[0] != prefix[1]
    requires ',' !in prefix && ',' !in t
    ensures ExtractPoint(x + [prefix[0]] + y + prefix + t, prefix)
         == Extraction(x + [prefix[0]] + y[..|y| - 1], NumberOf(t))
  {
    var a := x + [prefix[0]] + y;
    var s := a + prefix + t;
    var start := |a|;
    assert s[..start] == a && s[start..start + |prefix|] == prefix && s[start + |prefix|..] == t;
    forall i | 0 <= i < start
      ensures !MatchAt(s, prefix, i)
    {
      if i < |x| {
        assert s[i] == x[i];
      } else if i == |x| {
        assert s[i + 1] == y[0];
      } else {
        assert s[i] == y[i - |x| - 1];
      }
    }
    forall j | start < j < |s|
      ensures s[j] != ','
    {
      if j < start + |prefix| {
        assert s[j] == prefix[j - start];
      } else {
        assert s[j] == t[j - start - |prefix|];
      }
    }
    ExtractPointAtEnd(s, prefix, start);
    assert s[..start - 1] == x + [prefix[0]] + y[..|y| - 1];
  }

  /** The four cases pinned by the `extractPoint` tests. */
  lemma ExtractPointMiddleExample()
    ensures ExtractPoint("enhancement,osp_5,psp_13", "osp_") == Extraction("enhancement,psp_13", NumberOf("5"))
  {
    var a, p, t, b := "enhancement,", "osp_", "5", "psp_13";
    assert "enhancement,osp_5,psp_13" == a + p + t + "," + b;
    assert a + b == "enhancement,psp_13";
    TokenBeforeComma(a, p, t, b);
  }

  lemma ExtractPointOnlyExample()
    ensures ExtractPoint("psp_5", "psp_") == Extraction("", NumberOf("5"))
  {
    var a, p, t := "", "psp_", "5";
    assert "psp_5" == a + p + t;
    TokenAtEnd(a, p, t);
  }

  lemma ExtractPointFirstExample()
    ensures ExtractPoint("psp_5,osp_2", "psp_") == Extraction("osp_2", NumberOf("5"))
  {
    var a, p, t, b := "", "psp_", "5", "osp_2";
    assert "psp_5,osp_2" == a + p + t + "," + b;
    assert a + b == "osp_2";
    TokenBeforeComma(a, p, t, b);
  }

  lemma ExtractPointLastExample()
    ensures ExtractPoint("psp_5,osp_2", "osp_") == Extraction("psp_5", NumberOf("2"))
  {
    var a, p, t := "psp_5,", "osp_", "2";
    assert "psp_5,osp_2" == a + p + t;
    assert a[..|a| - 1] == "psp_5";
    TokenAtEnd(a, p, t);
  }

  lemma ExtractPointSecondPassExample()
    ensures ExtractPoint("osp_2", "osp_") == Extraction("", NumberOf("2"))
  {
    var a, p, t := "", "osp_", "2";
    assert "osp_2" == a + p + t;
    TokenAtEnd(a, p, t);
  }

  /**
   * The prefix is also found inside a longer label, and then the character
   * before it is dropped as if it were the separating comma.
   */
  lemma ExtractPointInsideLabelExample()
    ensures ExtractPoint("bug,xpsp_3", "psp_") == Extraction("bug,", NumberOf("3"))
  {
    var a, p, t := "bug,x", "psp_", "3";
    assert "bug,xpsp_3" == a + p + t;
    assert a[..|a| - 1] == "bug,";
    TokenAtEnd(a, p, t);
  }

  /**
   * When a comma follows such a match, the token and that comma are cut and the
   * text before the match joins the next label.
   */
  lemma ExtractPointGluedExample()
    ensures ExtractPoint("bug,xpsp_3,foo", "psp_") == Extraction("bug,xfoo", NumberOf("3"))
  {
    var a, p, t, b := "bug,x", "psp_", "3", "foo";
    assert "bug,xpsp_3,foo" == a + p + t + "," + b;
    assert a + b == "bug,xfoo";
    TokenBeforeComma(a, p, t, b);
  }

  /**
   * The pessimistic pass over the second test issue's labels, where the
   * optimistic token comes first and the prefix's first character occurs inside
   * it: the pessimistic token is cut from the end.
   */
  lemma ExtractPointPspAfterOspExample()
    ensures ExtractPoint("enhancement,osp_5,psp_13", "psp_") == Extraction("enhancement,osp_5", NumberOf("13"))
  {
    var x, y, p, t := "enhancement,os", "_5,", "psp_", "13";
    assert p[0] == 'p' && p[1] == 's';
    assert "enhancement,osp_5,psp_13" == x + [p[0]] + y + p + t;
    assert x + [p[0]] + y[..|y| - 1] == "enhancement,osp_5";
    TokenAtEndPastNearMiss(x, y, p, t);
  }

  /** The optimistic pass over what the pessimistic one left of the second test issue's labels. */
  lemma ExtractPointOspAfterPspExample()
    ensures ExtractPoint("enhancement,osp_5", "osp_") == Extraction("enhancement", NumberOf("5"))
  {
    var a, p, t := "enhancement,", "osp_", "5";
    assert "enhancement,osp_5" == a + p + t;
    assert a[..|a| - 1] == "enhancement";
    TokenAtEnd(a, p, t);
  }
}
