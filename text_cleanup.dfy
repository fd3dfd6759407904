/**
  The text helpers of the voice pipeline: Kotlin's `isBlank`, and the clean-up
  `processRecognizedText` (trim, then replace every run of `\s` by one space)
  that VoiceRecognitionManager applies to a final result before committing it.

  Two different notions of white space are involved, and the model keeps them apart:
  `String.trim()` and `isBlank()` use Kotlin's `Char.isWhitespace`, which on the JVM is
  `Character.isWhitespace(c) || Character.isSpaceChar(c)`; the pattern `\s` of Android's
  `java.util.regex`, which is backed by ICU, is the Unicode property White_Space: U+0009..U+000D,
  next line (U+0085), the space separators, and the line and paragraph separators. The two
  differ in two places: the information separators U+001C..U+001F are white space without
  being `\s`, and next line is `\s` without being white space, so `trim()` keeps it.
*/
module TextCleanup {
  import opened Base

  /** Kotlin's `Char.isWhitespace` on the JVM. */
  predicate IsWhitespace(c: char) {
    || ('\t' <= c <= '\r')               // U+0009 .. U+000D
    || ('\U{001C}' <= c <= '\U{001F}')   // information separators
    || c == ' ' || c == '\U{00A0}' || c == '\U{1680}'
    || ('\U{2000}' <= c <= '\U{200A}')
    || c == '\U{2028}' || c == '\U{2029}' || c == '\U{202F}' || c == '\U{205F}'
    || c == '\U{3000}'
  }

  /** The regular-expression class `\s` on Android (ICU): the property White_Space. */
  predicate IsRegexSpace(c: char) {
    || ('\t' <= c <= '\r')                          // U+0009 .. U+000D
    || c == '\U{0085}'                               // next line
    || c == ' ' || c == '\U{00A0}' || c == '\U{1680}'  // \p{Zs}
    || ('\U{2000}' <= c <= '\U{200A}')
    || c == '\U{202F}' || c == '\U{205F}' || c == '\U{3000}'
    || c == '\U{2028}' || c == '\U{2029}'              // \p{Zl}, \p{Zp}
  }

  /** Where `\s` and `trim()`'s white space differ: next line is only `\s`, and the
      information separators are only white space. */
  lemma RegexSpaceVersusWhitespace(c: char)
    ensures IsRegexSpace(c) && !IsWhitespace(c) <==> c == '\U{0085}'
    ensures IsWhitespace(c) && !IsRegexSpace(c) <==> '\U{001C}' <= c <= '\U{001F}'
  {
  }

  /** Kotlin's `CharSequence.isBlank()`: empty, or white space only. */
  predicate IsBlank(s: string) {
    forall i :: 0 <= i < |s| ==> IsWhitespace(s[i])
  }

  lemma BlankConcat(x: string, y: string)
    requires IsBlank(x) && IsBlank(y)
    ensures IsBlank(x + y)
  {
    forall k | 0 <= k < |x + y| ensures IsWhitespace((x + y)[k]) {
      if k >= |x| { assert (x + y)[k] == y[k - |x|]; }
    }
  }

  /** A blank prefix of `t` stays blank with one more white-space character in front. */
  lemma BlankBefore(c: char, t: string, n: int)
    requires IsWhitespace(c) && 0 <= n <= |t| && IsBlank(t[..n])
    ensures IsBlank(([c] + t)[..n + 1])
  {
    assert ([c] + t)[..n + 1] == [c] + t[..n];
    BlankConcat([c], t[..n]);
  }

  /** A blank suffix of `t` stays blank with one more white-space character behind. */
  lemma BlankAfter(t: string, c: char, n: int)
    requires IsWhitespace(c) && 0 <= n <= |t| && IsBlank(t[n..])
    ensures IsBlank((t + [c])[n..])
  {
    assert (t + [c])[n..] == t[n..] + [c];
    BlankConcat(t[n..], [c]);
  }

  /** Drops the leading white space (first half of `String.trim()`). */
  function TrimStart(s: string): (r: string)
    ensures |r| <= |s| && r == s[|s| - |r|..]
    ensures IsBlank(s[..|s| - |r|])
    ensures r == [] || !IsWhitespace(r[0])
  {
    if s != [] && IsWhitespace(s[0]) then
      var r := TrimStart(s[1..]);
      BlankBefore(s[0], s[1..], |s| - 1 - |r|);
      assert [s[0]] + s[1..] == s;
      r
    else s
  }

  /** Drops the trailing white space (second half of `String.trim()`). */
  function TrimEnd(s: string): (r: string)
    ensures |r| <= |s| && r == s[..|r|]
    ensures IsBlank(s[|r|..])
    ensures r == [] || !IsWhitespace(r[|r| - 1])
  {
    if s != [] && IsWhitespace(s[|s| - 1]) then
      var r := TrimEnd(s[..|s| - 1]);
      BlankAfter(s[..|s| - 1], s[|s| - 1], |r|);
      assert s[..|s| - 1] + [s[|s| - 1]] == s;
      r
    else s
  }

  /** `r` is the slice of `s` starting at `i`, with only white space before and after it. */
  predicate BlankAround(s: string, i: int, r: string) {
    0 <= i <= |s| - |r| && r == s[i..i + |r|] && IsBlank(s[..i]) && IsBlank(s[i + |r|..])
  }

  /** Kotlin's `String.trim()`: the longest slice of `s` that neither starts nor ends with
      white space and outside which there is only white space. */
  function Trim(s: string): (r: string)
    ensures r == [] <==> IsBlank(s)
    ensures r == [] || (!IsWhitespace(r[0]) && !IsWhitespace(r[|r| - 1]))
    ensures |r| <= |s|
  {
    var a := TrimStart(s);
    var r := TrimEnd(a);
    TrimHalves(s, a, r);
    r
  }

  /** What the two halves of `trim()` promise, put together into what `Trim` promises. */
  lemma TrimHalves(s: string, a: string, r: string)
    requires |a| <= |s| && a == s[|s| - |a|..] && IsBlank(s[..|s| - |a|])
    requires a == [] || !IsWhitespace(a[0])
    requires |r| <= |a| && r == a[..|r|] && IsBlank(a[|r|..])
    requires r == [] || !IsWhitespace(r[|r| - 1])
    ensures r == [] <==> IsBlank(s)
    ensures r == [] || (!IsWhitespace(r[0]) && !IsWhitespace(r[|r| - 1]))
  {
    TrimIsEmptyIffBlank(s, a, r);
  }

  /** `trim()` leaves a slice of its input with only white space before and after it. */
  lemma TrimIsSlice(s: string)
    ensures exists i :: BlankAround(s, i, Trim(s))
  {
    TrimSlice(s, TrimStart(s), Trim(s));
  }

  /** The two halves of `trim()` leave a slice of `s` with white space on either side. */
  lemma TrimSlice(s: string, a: string, r: string)
    requires |a| <= |s| && a == s[|s| - |a|..] && IsBlank(s[..|s| - |a|])
    requires |r| <= |a| && r == a[..|r|] && IsBlank(a[|r|..])
    ensures BlankAround(s, |s| - |a|, r)
  {
    var i := |s| - |a|;
    assert r == s[i..i + |r|];
    assert s[i + |r|..] == a[|r|..];
  }

  /** `s` is blank exactly when nothing is left once both ends are trimmed; `a` and `r` are
      the results of the two halves of the trim, described by what those promise. */
  lemma TrimIsEmptyIffBlank(s: string, a: string, r: string)
    requires |a| <= |s| && a == s[|s| - |a|..] && IsBlank(s[..|s| - |a|])
    requires a == [] || !IsWhitespace(a[0])
    requires |r| <= |a| && r == a[..|r|] && IsBlank(a[|r|..])
    ensures r == [] <==> IsBlank(s)
  {
    var i := |s| - |a|;
    if r != [] {
      assert r[0] == a[0] == s[i];
    } else {
      assert a[|r|..] == a;
      BlankConcat(s[..i], a);
      assert s == s[..i] + a;
    }
  }

  /** Drops a leading run of `\s` characters. */
  function DropRegexSpaces(s: string): (r: string)
    ensures |r| <= |s| && r == s[|s| - |r|..]
    ensures forall k :: 0 <= k < |s| - |r| ==> IsRegexSpace(s[k])
    ensures r == [] || !IsRegexSpace(r[0])
  {
    if s != [] && IsRegexSpace(s[0]) then DropRegexSpaces(s[1..]) else s
  }

  /** `replace(Regex("\\s+"), " ")`: every maximal run of `\s` characters becomes one space. */
  function CollapseSpaces(s: string): (r: string)
    // never longer, and empty only for the empty string
    ensures |r| <= |s|
    ensures r == [] <==> s == []
    decreases |s|
  {
    if s == [] then []
    else if IsRegexSpace(s[0]) then [' '] + CollapseSpaces(DropRegexSpaces(s[1..]))
    else [s[0]] + CollapseSpaces(s[1..])
  }

  /** A string in which every `\s` character is a plain space and no two of them are adjacent. */
  predicate SpacesCollapsed(s: string) {
    forall i :: 0 <= i < |s| && IsRegexSpace(s[i]) ==> s[i] == ' ' && (i + 1 < |s| ==> !IsRegexSpace(s[i + 1]))
  }

  /** The characters of `s` that are not `\s`, in order. */
  function Words(s: string): (r: string)
    ensures forall k :: 0 <= k < |r| ==> !IsRegexSpace(r[k])
  {
    if s == [] then [] else (if IsRegexSpace(s[0]) then [] else [s[0]]) + Words(s[1..])
  }

  /** `processRecognizedText`: trim, then collapse every run of `\s` to one space. */
  function ProcessRecognizedText(text: string): (r: string)
    // never longer than the recognized text, and empty exactly when it is blank
    ensures |r| <= |text|
    ensures r == [] <==> IsBlank(text)
  {
    CollapseSpaces(Trim(text))
  }

  // ---------------------------------------------------------------------------------
  // Properties of CollapseSpaces


  /** The result starts with the first character, or with a space where that is `\s`. */
  lemma CollapseFirst(s: string)
    requires s != []
    ensures var r := CollapseSpaces(s);
      r != [] && r[0] == if IsRegexSpace(s[0]) then ' ' else s[0]
  {
  }

  /** The result ends with the last character, or with a space where that is `\s`. */
  lemma {:induction false} CollapseLast(s: string)
    requires s != []
    ensures var r := CollapseSpaces(s);
      r != [] && r[|r| - 1] == if IsRegexSpace(s[|s| - 1]) then ' ' else s[|s| - 1]
    decreases |s|, 1
  {
    if IsRegexSpace(s[0]) {
      CollapseLastAfterSpace(s);
    } else if |s| > 1 {
      CollapseLast(s[1..]);
      var c := CollapseSpaces(s[1..]);
      assert CollapseSpaces(s) == [s[0]] + c;
      assert ([s[0]] + c)[|c|] == c[|c| - 1];
    } else {
      assert CollapseSpaces(s) == [s[0]] + CollapseSpaces([]);
    }
  }

  /** CollapseLast for a string that starts with a `\s` character. */
  lemma {:induction false} CollapseLastAfterSpace(s: string)
    requires s != [] && IsRegexSpace(s[0])
    ensures var r := CollapseSpaces(s);
      r != [] && r[|r| - 1] == if IsRegexSpace(s[|s| - 1]) then ' ' else s[|s| - 1]
    decreases |s|, 0
  {
    var d := DropRegexSpaces(s[1..]);
    var c := CollapseSpaces(d);
    assert CollapseSpaces(s) == [' '] + c;
    if d == [] {
      // the whole rest of s was the run after s[0]
      assert |s| == 1 || IsRegexSpace(s[|s| - 1]) by {
        if |s| > 1 { assert s[1..][|s| - 2] == s[|s| - 1]; }
      }
    } else {
      assert d[|d| - 1] == s[|s| - 1];
      CollapseLast(d);
      assert ([' '] + c)[|c|] == c[|c| - 1];
    }
  }

  /** The output of CollapseSpaces has no two adjacent `\s` characters, and each is a space. */
  lemma {:induction false} CollapseIsCollapsed(s: string)
    ensures SpacesCollapsed(CollapseSpaces(s))
    decreases |s|
  {
    if s == [] {
    } else if IsRegexSpace(s[0]) {
      var d := DropRegexSpaces(s[1..]);
      CollapseIsCollapsed(d);
      var tail := CollapseSpaces(d);
      if d != [] { CollapseFirst(d); }
      var r := [' '] + tail;
      forall i | 0 <= i < |r| && IsRegexSpace(r[i])
        ensures r[i] == ' ' && (i + 1 < |r| ==> !IsRegexSpace(r[i + 1]))
      {
        if i > 0 { assert r[i] == tail[i - 1]; }
      }
    } else {
      CollapseIsCollapsed(s[1..]);
      var tail := CollapseSpaces(s[1..]);
      var r := [s[0]] + tail;
      forall i | 0 <= i < |r| && IsRegexSpace(r[i])
        ensures r[i] == ' ' && (i + 1 < |r| ==> !IsRegexSpace(r[i + 1]))
      {
        assert i > 0;
        assert r[i] == tail[i - 1];
      }
    }
  }

  /** A string already collapsed is left as it is. */
  lemma {:induction false} CollapseFixesCollapsed(s: string)
    requires SpacesCollapsed(s)
    ensures CollapseSpaces(s) == s
    decreases |s|
  {
    if s != [] {
      assert SpacesCollapsed(s[1..]) by {
        forall i | 0 <= i < |s[1..]| && IsRegexSpace(s[1..][i])
          ensures s[1..][i] == ' ' && (i + 1 < |s[1..]| ==> !IsRegexSpace(s[1..][i + 1]))
        {
          assert s[1..][i] == s[i + 1];
        }
      }
      if IsRegexSpace(s[0]) {
        assert s[1..] == [] || !IsRegexSpace(s[1]);
        assert DropRegexSpaces(s[1..]) == s[1..];
      }
      CollapseFixesCollapsed(s[1..]);
    }
  }

  /** Dropping leading spaces does not change the non-space characters. */
  lemma {:induction false} DropKeepsWords(s: string)
    ensures Words(DropRegexSpaces(s)) == Words(s)
    decreases |s|
  {
    if s != [] && IsRegexSpace(s[0]) {
      DropKeepsWords(s[1..]);
    }
  }

  /** CollapseSpaces changes only white space: the non-space characters are kept, in order. */
  lemma {:induction false} CollapseKeepsWords(s: string)
    ensures Words(CollapseSpaces(s)) == Words(s)
    decreases |s|
  {
    if s == [] {
    } else if IsRegexSpace(s[0]) {
      var d := DropRegexSpaces(s[1..]);
      CollapseKeepsWords(d);
      DropKeepsWords(s[1..]);
      assert ([' '] + CollapseSpaces(d))[1..] == CollapseSpaces(d);
    } else {
      CollapseKeepsWords(s[1..]);
      assert ([s[0]] + CollapseSpaces(s[1..]))[1..] == CollapseSpaces(s[1..]);
    }
  }

  /** A run of `\s` characters followed by a character that is not `\s` (or by nothing) is
      dropped entirely, and nothing after it. */
  lemma {:induction false} DropRun(run: string, b: string)
    requires forall k :: 0 <= k < |run| ==> IsRegexSpace(run[k])
    requires b == [] || !IsRegexSpace(b[0])
    ensures DropRegexSpaces(run + b) == b
    decreases |run|
  {
    if run == [] {
      assert run + b == b;
    } else {
      assert (run + b)[1..] == run[1..] + b;
      DropRun(run[1..], b);
    }
  }

  /** Dropping leading `\s` characters stops within a text that ends with another character. */
  lemma {:induction false} DropAppend(u: string, y: string)
    requires u != [] && !IsRegexSpace(u[|u| - 1])
    ensures DropRegexSpaces(u + y) == DropRegexSpaces(u) + y
    decreases |u|
  {
    assert (u + y)[0] == u[0];
    if IsRegexSpace(u[0]) {
      assert (u + y)[1..] == u[1..] + y;
      DropAppend(u[1..], y);
    }
  }

  /** Collapsing distributes over a cut just after a character that is not `\s`. */
  lemma {:induction false} CollapseAppend(x: string, y: string)
    requires x == [] || !IsRegexSpace(x[|x| - 1])
    ensures CollapseSpaces(x + y) == CollapseSpaces(x) + CollapseSpaces(y)
    decreases |x|
  {
    if x == [] {
      assert x + y == y;
    } else {
      var c, u := x[0], x[1..];
      SplitHead(x);
      AppendAssoc([c], u, y);
      if IsRegexSpace(c) {
        assert u != [] && u[|u| - 1] == x[|x| - 1];
        DropAppend(u, y);
        var w := DropRegexSpaces(u);
        assert w != [] by {
          assert !IsRegexSpace(u[|u| - 1]);
        }
        assert w[|w| - 1] == u[|u| - 1];
        CollapseAppend(w, y);
        CollapseSpaceFirst(c, u + y);
        CollapseSpaceFirst(c, u);
        AppendAssoc([' '], CollapseSpaces(w), CollapseSpaces(y));
      } else {
        CollapseAppend(u, y);
        CollapseWordFirst(c, u + y);
        CollapseWordFirst(c, u);
        AppendAssoc([c], CollapseSpaces(u), CollapseSpaces(y));
      }
    }
  }

  /** `replace(Regex("\\s+"), " ")` on a whole run: a maximal non-empty run of `\s`
      characters between two other parts becomes exactly one space. */
  lemma CollapseRun(a: string, run: string, b: string)
    requires a == [] || !IsRegexSpace(a[|a| - 1])
    requires run != [] && forall k :: 0 <= k < |run| ==> IsRegexSpace(run[k])
    requires b == [] || !IsRegexSpace(b[0])
    ensures CollapseSpaces(a + run + b) == CollapseSpaces(a) + " " + CollapseSpaces(b)
  {
    var t := run[1..] + b;
    SplitHead(run);
    AppendAssoc([run[0]], run[1..], b);
    AppendAssoc(a, run, b);
    assert CollapseSpaces(run + b) == [' '] + CollapseSpaces(b) by {
      DropRun(run[1..], b);
      CollapseSpaceFirst(run[0], t);
    }
    CollapseAppend(a, run + b);
    AppendAssoc(CollapseSpaces(a), " ", CollapseSpaces(b));
  }

  // ---------------------------------------------------------------------------------
  // Properties of processRecognizedText

  /** The result is empty exactly when the input is blank, and has no run of two `\s`
      characters. It starts (ends) with white space exactly when the trimmed text starts (ends)
      with next line (U+0085), which `trim()` keeps and the collapse turns into a space. */
  lemma {:induction false} ProcessedTextIsClean(text: string)
    ensures ProcessRecognizedText(text) == [] <==> IsBlank(text)
    ensures var t, r := Trim(text), ProcessRecognizedText(text);
      r != [] ==> && (IsWhitespace(r[0]) <==> t[0] == '\U{0085}')
                  && (IsWhitespace(r[|r| - 1]) <==> t[|t| - 1] == '\U{0085}')
    ensures SpacesCollapsed(ProcessRecognizedText(text))
  {
    CollapseIsCollapsed(Trim(text));
    ProcessedEnds(Trim(text));
  }

  /** Collapsing a trimmed text keeps its first and last characters, except that a next-line
      character there becomes a plain space. */
  lemma {:induction false} ProcessedEnds(t: string)
    requires t == [] || (!IsWhitespace(t[0]) && !IsWhitespace(t[|t| - 1]))
    ensures var r := CollapseSpaces(t);
      t != [] ==> && r[0] == (if t[0] == '\U{0085}' then ' ' else t[0])
                  && r[|r| - 1] == (if t[|t| - 1] == '\U{0085}' then ' ' else t[|t| - 1])
    // so the result starts (ends) with white space exactly where t starts (ends) with next line
    ensures var r := CollapseSpaces(t);
      t != [] ==> && (IsWhitespace(r[0]) <==> t[0] == '\U{0085}')
                  && (IsWhitespace(r[|r| - 1]) <==> t[|t| - 1] == '\U{0085}')
  {
    if t != [] {
      ProcessedStart(t);
      ProcessedEnd(t);
    }
  }

  lemma ProcessedStart(t: string)
    requires t != [] && !IsWhitespace(t[0])
    ensures var r := CollapseSpaces(t);
      r != [] && r[0] == (if t[0] == '\U{0085}' then ' ' else t[0])
  {
    CollapseFirst(t);
    RegexSpaceVersusWhitespace(t[0]);
  }

  lemma ProcessedEnd(t: string)
    requires t != [] && !IsWhitespace(t[|t| - 1])
    ensures var r := CollapseSpaces(t);
      r != [] && r[|r| - 1] == (if t[|t| - 1] == '\U{0085}' then ' ' else t[|t| - 1])
  {
    CollapseLast(t);
    RegexSpaceVersusWhitespace(t[|t| - 1]);
  }

  /** Apart from the trimmed ends, only white space changes: the non-space characters of the
      trimmed input are kept, in order. */
  lemma ProcessedTextKeepsWords(text: string)
    ensures Words(ProcessRecognizedText(text)) == Words(Trim(text))
  {
    CollapseKeepsWords(Trim(text));
  }

  /** Cleaning twice is the same as cleaning once exactly when the trimmed text neither starts
      nor ends with next line; otherwise the second trim removes the space it became. */
  lemma {:induction false} ProcessIdempotent(text: string)
    ensures var t := Trim(text);
      (ProcessRecognizedText(ProcessRecognizedText(text)) == ProcessRecognizedText(text))
        <==> (t == [] || (t[0] != '\U{0085}' && t[|t| - 1] != '\U{0085}'))
  {
    var t := Trim(text);
    var r := ProcessRecognizedText(text);
    ProcessedTextIsClean(text);
    if t == [] {
      assert r == [] && Trim(r) == [];
    } else if t[0] != '\U{0085}' && t[|t| - 1] != '\U{0085}' {
      ProcessTrimmed(r);
      CollapseFixesCollapsed(r);
    } else {
      // an end of r is white space, so the second trim makes it shorter
      var q := Trim(r);
      assert q != r by {
        if q != [] {
          assert IsWhitespace(r[0]) || IsWhitespace(r[|r| - 1]);
        }
      }
      assert |q| < |r|;
    }
  }

  /** A text that neither starts nor ends with white space is its own trim. */
  lemma TrimKeepsTrimmed(s: string)
    requires s != [] && !IsWhitespace(s[0]) && !IsWhitespace(s[|s| - 1])
    ensures Trim(s) == s
  {
    assert TrimStart(s) == s;
  }

  /** Cleaning a text that neither starts nor ends with white space only collapses its runs. */
  lemma ProcessTrimmed(s: string)
    requires s != [] && !IsWhitespace(s[0]) && !IsWhitespace(s[|s| - 1])
    ensures ProcessRecognizedText(s) == CollapseSpaces(s)
  {
    TrimKeepsTrimmed(s);
  }

  /** CollapseSpaces on a string that starts with a character other than `\s`. */
  lemma CollapseWordFirst(c: char, t: string)
    requires !IsRegexSpace(c)
    ensures CollapseSpaces([c] + t) == [c] + CollapseSpaces(t)
  {
    assert ([c] + t)[1..] == t;
  }

  /** CollapseSpaces on a string that starts with a `\s` character. */
  lemma CollapseSpaceFirst(c: char, t: string)
    requires IsRegexSpace(c)
    ensures CollapseSpaces([c] + t) == [' '] + CollapseSpaces(DropRegexSpaces(t))
  {
    assert ([c] + t)[1..] == t;
  }

  /** A single character other than `\s` is left as it is. */
  lemma CollapseOneWord(b: char)
    requires !IsRegexSpace(b)
    ensures CollapseSpaces([b]) == [b]
  {
    CollapseWordFirst(b, []);
    assert [b] + [] == [b];
  }

  /** A leading run of `\s` characters ends where another character starts. */
  lemma DropStopsAtWord(t: string)
    requires t != [] && !IsRegexSpace(t[0])
    ensures DropRegexSpaces(t) == t
  {
  }

  /** Two `\s` characters before another character collapse to one space. */
  lemma CollapseSpaceRun(sp: char, t: string)
    requires IsRegexSpace(sp) && t != [] && !IsRegexSpace(t[0])
    ensures CollapseSpaces([sp, sp] + t) == [' '] + CollapseSpaces(t)
  {
    assert DropRegexSpaces([sp] + t) == t by {
      assert ([sp] + t)[1..] == t;
      DropStopsAtWord(t);
    }
    assert [sp, sp] + t == [sp] + ([sp] + t);
    CollapseSpaceFirst(sp, [sp] + t);
  }

  /** Two `\s` characters between two other characters collapse to one space. */
  lemma CollapseDoubleSpace(a: char, sp: char, b: char)
    requires !IsRegexSpace(a) && IsRegexSpace(sp) && !IsRegexSpace(b)
    ensures CollapseSpaces([a, sp, sp, b]) == [a, ' ', b]
  {
    var u := [b];
    var t := [sp, sp] + u;
    assert CollapseSpaces(t) == [' '] + u by {
      CollapseSpaceRun(sp, u);
      CollapseOneWord(b);
    }
    assert CollapseSpaces([a] + t) == [a] + CollapseSpaces(t) by {
      CollapseWordFirst(a, t);
    }
    assert [a, sp, sp, b] == [a] + t;
    assert [a] + ([' '] + u) == [a, ' ', b];
  }

  /** A run of ideographic spaces (U+3000), which ICU's `\s` matches, collapses to one space. */
  lemma IdeographicSpacesCollapse()
    ensures ProcessRecognizedText("a\U{3000}\U{3000}b") == "a b"
  {
    var s := "a\U{3000}\U{3000}b";
    assert s == ['a', '\U{3000}', '\U{3000}', 'b'];
    ProcessTrimmed(s);
    CollapseDoubleSpace('a', '\U{3000}', 'b');
  }

  /** Vertical tab (U+000B) is `\s`, so a run of them collapses to one space. */
  lemma VerticalTabsCollapse()
    ensures ProcessRecognizedText("a\U{000B}\U{000B}b") == "a b"
  {
    var s := "a\U{000B}\U{000B}b";
    assert s == ['a', '\U{000B}', '\U{000B}', 'b'];
    ProcessTrimmed(s);
    CollapseDoubleSpace('a', '\U{000B}', 'b');
  }

  /** Only `\s` runs are collapsed: a run of information separators (U+001C), which `trim()`
      treats as white space but ICU's `\s` does not match, survives inside the text. */
  lemma SeparatorsSurvive()
    ensures ProcessRecognizedText("a\U{001C}\U{001C}b") == "a\U{001C}\U{001C}b"
  {
    var s := "a\U{001C}\U{001C}b";
    assert CollapseSpaces(s) == s by {
      assert !IsRegexSpace(s[0]) && !IsRegexSpace(s[1]) && !IsRegexSpace(s[2]) && !IsRegexSpace(s[3]);
      assert SpacesCollapsed(s);
      CollapseFixesCollapsed(s);
    }
    ProcessTrimmed(s);
  }

  /** A leading next-line character survives `trim()` and then becomes a space: the cleaned
      text starts with white space, and cleaning it again removes that space. */
  lemma NextLineLeadsCleanedText()
    ensures ProcessRecognizedText("\U{0085}a") == " a"
    ensures ProcessRecognizedText(" a") == "a"
  {
    NextLineBecomesSpace();
    LeadingSpaceTrimmed();
  }

  lemma NextLineBecomesSpace()
    ensures ProcessRecognizedText("\U{0085}a") == " a"
  {
    var s := "\U{0085}a";
    assert s == ['\U{0085}', 'a'];
    ProcessTrimmed(s);
    CollapseLeadingSpace('\U{0085}', 'a');
  }

  /** A `\s` character before another character becomes a plain space. */
  lemma CollapseLeadingSpace(sp: char, b: char)
    requires IsRegexSpace(sp) && !IsRegexSpace(b)
    ensures CollapseSpaces([sp, b]) == [' ', b]
  {
    assert [sp, b] == [sp] + [b];
    CollapseSpaceFirst(sp, [b]);
    DropStopsAtWord([b]);
    CollapseOneWord(b);
  }

  lemma LeadingSpaceTrimmed()
    ensures ProcessRecognizedText(" a") == "a"
  {
    assert " a" == [' ', 'a'];
    TrimLeadingWhite(' ', 'a');
    CollapseOneWord('a');
  }

  /** One white-space character before another character is trimmed away. */
  lemma TrimLeadingWhite(w: char, b: char)
    requires IsWhitespace(w) && !IsWhitespace(b)
    ensures Trim([w, b]) == [b]
  {
    TrimStartDrops(w, b);
    TrimEndKeeps(b);
    TrimIsHalves([w, b]);
  }

  lemma TrimStartDrops(w: char, b: char)
    requires IsWhitespace(w) && !IsWhitespace(b)
    ensures TrimStart([w, b]) == [b]
  {
    assert [w, b][1..] == [b];
  }

  lemma TrimEndKeeps(b: char)
    requires !IsWhitespace(b)
    ensures TrimEnd([b]) == [b]
  { }

  /** `Trim` is its two halves, one after the other. */
  lemma TrimIsHalves(s: string)
    ensures Trim(s) == TrimEnd(TrimStart(s))
  {
  }


  // ---------------------------------------------------------------------------------
  // The cleanup as evidently intended

  /** Every slice of a collapsed text is collapsed. */
  lemma {:induction false} CollapsedSlice(p: string, i: int, n: int)
    requires SpacesCollapsed(p) && 0 <= i <= i + n <= |p|
    ensures SpacesCollapsed(p[i..i + n])
  {
    var q := p[i..i + n];
    forall j | 0 <= j < |q| && IsRegexSpace(q[j])
      ensures q[j] == ' ' && (j + 1 < |q| ==> !IsRegexSpace(q[j + 1]))
    {
      assert q[j] == p[i + j];
      if j + 1 < |q| { assert q[j + 1] == p[i + j + 1]; }
    }
  }

  /** Where the slice that `trim()` keeps starts. */
  lemma {:induction false} TrimOffset(p: string) returns (i: int)
    ensures 0 <= i <= |p| - |Trim(p)| && Trim(p) == p[i..i + |Trim(p)|]
  {
    TrimIsSlice(p);
    i :| BlankAround(p, i, Trim(p));
  }

  /** Trimming a collapsed text leaves it collapsed. */
  lemma {:induction false} TrimKeepsCollapsed(p: string)
    requires SpacesCollapsed(p)
    ensures SpacesCollapsed(Trim(p))
  {
    var i := TrimOffset(p);
    CollapsedSlice(p, i, |Trim(p)|);
  }

  /** `processRecognizedText` trimmed once more, so that no white space is left at either end:
      what the "trim, then remove repeated spaces" of the source evidently aims at. */
  function CleanRecognizedText(text: string): (r: string)
    ensures IsBlank(text) ==> r == []
    ensures r == [] || (!IsWhitespace(r[0]) && !IsWhitespace(r[|r| - 1]))
    ensures SpacesCollapsed(r)
  {
    var p := ProcessRecognizedText(text);
    ProcessedTextIsClean(text);
    TrimKeepsCollapsed(p);
    Trim(p)
  }

  /** The intended cleanup is idempotent. */
  lemma {:induction false} CleanIdempotent(text: string)
    ensures CleanRecognizedText(CleanRecognizedText(text)) == CleanRecognizedText(text)
  {
    var q := CleanRecognizedText(text);
    if q != [] {
      TrimKeepsTrimmed(q);
      CollapseFixesCollapsed(q);
    }
  }

  /** The source's cleanup gives the intended result exactly when the trimmed text neither
      starts nor ends with next line. */
  lemma {:induction false} CleanAgreesWithSource(text: string)
    ensures var t := Trim(text);
      (CleanRecognizedText(text) == ProcessRecognizedText(text))
        <==> (t == [] || (t[0] != '\U{0085}' && t[|t| - 1] != '\U{0085}'))
  {
    var t := Trim(text);
    var r := ProcessRecognizedText(text);
    ProcessedTextIsClean(text);
    if t != [] && t[0] != '\U{0085}' && t[|t| - 1] != '\U{0085}' {
      TrimKeepsTrimmed(r);
    }
  }
}
