/**
 * The two string tests of `process_excel`: the '.xlsx' suffix check
 * (`str.endswith`) and the case-insensitive substring test of
 * `Series.str.contains(..., case=False)`.
 */
module Text {

  /**
   * Lower case of a Latin capital or a basic Cyrillic capital (U+0400 to
   * U+042F); every other character is left as it is.
   */
  function FoldChar(c: char): char
  {
    if 'A' <= c <= 'Z' then (c as int + 32) as char
    else if '\U{0410}' <= c <= '\U{042F}' then (c as int + 32) as char
    else if '\U{0400}' <= c <= '\U{040F}' then (c as int + 80) as char
    else c
  }

  /** Folding twice is folding once. */
  lemma FoldCharIdempotent(c: char)
    ensures FoldChar(FoldChar(c)) == FoldChar(c)
  {
  }

  function Fold(s: string): string
  {
    seq(|s|, i requires 0 <= i < |s| => FoldChar(s[i]))
  }

  /** `pat` occurs in `text` as a contiguous substring. */
  predicate Contains(text: string, pat: string)
    decreases |text|
  {
    pat <= text || (text != [] && Contains(text[1..], pat))
  }

  /** `pat` starts at position `i` of `text`. */
  predicate OccursAt(text: string, pat: string, i: int)
  {
    0 <= i && i + |pat| <= |text| && text[i..i + |pat|] == pat
  }

  /** An occurrence at any position makes `Contains` hold. */
  lemma {:induction false} OccursThenContains(text: string, pat: string, i: int)
    requires OccursAt(text, pat, i)
    ensures Contains(text, pat)
    decreases i
  {
    if i == 0 {
      assert text[..|pat|] == pat;
    } else {
      assert text[1..][i - 1..i - 1 + |pat|] == text[i..i + |pat|];
      OccursThenContains(text[1..], pat, i - 1);
    }
  }

  /** When `Contains` holds, the position where `pat` occurs. */
  lemma {:induction false} ContainsThenOccurs(text: string, pat: string) returns (i: int)
    requires Contains(text, pat)
    ensures OccursAt(text, pat, i)
    decreases |text|
  {
    if pat <= text {
      i := 0;
      assert text[..|pat|] == pat;
    } else {
      var j := ContainsThenOccurs(text[1..], pat);
      i := j + 1;
      assert text[1..][j..j + |pat|] == text[i..i + |pat|];
    }
  }

  /** `Contains` holds exactly when `pat` occurs at some position of `text`. */
  lemma ContainsAt(text: string, pat: string)
    ensures Contains(text, pat) <==> exists i :: OccursAt(text, pat, i)
  {
    if Contains(text, pat) {
      var i := ContainsThenOccurs(text, pat);
    }
    if exists i :: OccursAt(text, pat, i) {
      var i :| OccursAt(text, pat, i);
      OccursThenContains(text, pat, i);
    }
  }

  /** The test of `Series.str.contains(pat, case=False)` on one cell. */
  predicate ContainsIgnoringCase(text: string, pat: string)
  {
    Contains(Fold(text), Fold(pat))
  }

  /** The case of the letters of either side does not matter. */
  lemma IgnoresCase(text: string, pat: string)
    ensures ContainsIgnoringCase(text, pat) == ContainsIgnoringCase(Fold(text), pat)
    ensures ContainsIgnoringCase(text, pat) == ContainsIgnoringCase(text, Fold(pat))
  {
    forall c ensures FoldChar(FoldChar(c)) == FoldChar(c) {
      FoldCharIdempotent(c);
    }
    assert Fold(Fold(text)) == Fold(text);
    assert Fold(Fold(pat)) == Fold(pat);
  }

  /** `str.endswith`: `s` is some string followed by `suffix`. */
  predicate EndsWith(s: string, suffix: string): (b: bool)
    ensures b <==> exists p :: s == p + suffix
  {
    if |suffix| <= |s| then
      SuffixSplit(s, suffix);
      s[|s| - |suffix|..] == suffix
    else
      false
  }

  /** The tail of the right length equals `suffix` exactly when `s` is some string followed by `suffix`. */
  lemma SuffixSplit(s: string, suffix: string)
    requires |suffix| <= |s|
    ensures s[|s| - |suffix|..] == suffix <==> exists p :: s == p + suffix
  {
    if s[|s| - |suffix|..] == suffix {
      assert s == s[..|s| - |suffix|] + suffix;
    }
    if exists p :: s == p + suffix {
      var p :| s == p + suffix;
      assert s[|s| - |suffix|..] == suffix;
    }
  }

  /** Putting anything in front of a string keeps its suffixes. */
  lemma EndsWithExtended(p: string, s: string, suffix: string)
    requires EndsWith(s, suffix)
    ensures EndsWith(p + s, suffix)
  {
    var q :| s == q + suffix;
    assert p + s == (p + q) + suffix;
  }
}
