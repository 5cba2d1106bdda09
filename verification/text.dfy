/**
 * Case-insensitive substring search as Kotlin's `CharSequence.contains(other, ignoreCase = true)`
 * performs it: try every offset, and at each offset compare character by character with
 * `Char.equals(other, ignoreCase = true)`. Case mapping is restricted to ASCII letters.
 */
module Text {

  /** Upper case of an ASCII letter; every other character is its own upper case. */
  function UpperAscii(c: char): char {
    if 'a' <= c <= 'z' then (c as int - 32) as char else c
  }

  /** Lower case of an ASCII letter; every other character is its own lower case. */
  function LowerAscii(c: char): char {
    if 'A' <= c <= 'Z' then (c as int + 32) as char else c
  }

  /** Every character of `s` upper-cased. */
  function UpperAll(s: string): (r: string)
    ensures |r| == |s|
    ensures forall i :: 0 <= i < |s| ==> r[i] == UpperAscii(s[i])
  {
    if s == [] then [] else [UpperAscii(s[0])] + UpperAll(s[1..])
  }

  /** Every character of `s` lower-cased. */
  function LowerAll(s: string): (r: string)
    ensures |r| == |s|
    ensures forall i :: 0 <= i < |s| ==> r[i] == LowerAscii(s[i])
  {
    if s == [] then [] else [LowerAscii(s[0])] + LowerAll(s[1..])
  }

  /**
   * Kotlin's `Char.equals(other, ignoreCase = true)`: equal as they are, or equal once both
   * are upper-cased, or equal once both upper cases are lower-cased.
   */
  predicate CharEqualsIgnoreCase(a: char, b: char) {
    a == b || UpperAscii(a) == UpperAscii(b) || LowerAscii(UpperAscii(a)) == LowerAscii(UpperAscii(b))
  }

  /** `other` occurs in `text` at `offset`, ignoring case. */
  predicate RegionMatchesIgnoreCase(text: string, offset: nat, other: string)
    requires offset + |other| <= |text|
  {
    forall k :: 0 <= k < |other| ==> CharEqualsIgnoreCase(text[offset + k], other[k])
  }

  /** `other` occurs somewhere in `text`, ignoring case; the empty string occurs in every text. */
  predicate ContainsIgnoreCase(text: string, other: string)
    ensures other == [] ==> ContainsIgnoreCase(text, other)
    ensures |other| > |text| ==> !ContainsIgnoreCase(text, other)
  {
    assert other == [] ==> RegionMatchesIgnoreCase(text, 0, other);
    exists i :: 0 <= i <= |text| - |other| && RegionMatchesIgnoreCase(text, i, other)
  }

  /** `pattern` occurs in `text` at `offset`, character for character. */
  predicate SliceAt(text: string, offset: nat, pattern: string)
    requires offset + |pattern| <= |text|
  {
    text[offset..offset + |pattern|] == pattern
  }

  /** Reference form of a search: plain, case-sensitive occurrence somewhere in `text`. */
  predicate ContainsSlice(text: string, pattern: string) {
    exists i :: 0 <= i <= |text| - |pattern| && SliceAt(text, i, pattern)
  }

  /** Comparing ignoring case is comparing the lower-case forms. */
  lemma CharEqualsIgnoreCaseIsLowerEquality(a: char, b: char)
    ensures CharEqualsIgnoreCase(a, b) <==> LowerAscii(a) == LowerAscii(b)
  {
  }

  /** Upper-casing the text never changes whether a pattern is found in it. */
  lemma {:induction false} ContainsIgnoreCaseOfUpperAll(text: string, other: string)
    ensures ContainsIgnoreCase(UpperAll(text), other) <==> ContainsIgnoreCase(text, other)
  {
    var upper := UpperAll(text);
    forall i | 0 <= i <= |text| - |other|
      ensures RegionMatchesIgnoreCase(upper, i, other) <==> RegionMatchesIgnoreCase(text, i, other)
    {
      forall k | 0 <= k < |other|
        ensures CharEqualsIgnoreCase(upper[i + k], other[k]) <==> CharEqualsIgnoreCase(text[i + k], other[k])
      {
        CharEqualsIgnoreCaseIsLowerEquality(upper[i + k], other[k]);
        CharEqualsIgnoreCaseIsLowerEquality(text[i + k], other[k]);
      }
    }
    if ContainsIgnoreCase(text, other) {
      var i :| 0 <= i <= |text| - |other| && RegionMatchesIgnoreCase(text, i, other);
      assert RegionMatchesIgnoreCase(upper, i, other);
    }
    if ContainsIgnoreCase(upper, other) {
      var i :| 0 <= i <= |upper| - |other| && RegionMatchesIgnoreCase(upper, i, other);
      assert RegionMatchesIgnoreCase(text, i, other);
    }
  }

  /** A text that holds a match keeps it when anything is written before or after it. */
  lemma {:induction false} ContainsIgnoreCaseInContext(prefix: string, text: string, suffix: string, other: string)
    requires ContainsIgnoreCase(text, other)
    ensures ContainsIgnoreCase(prefix + text + suffix, other)
  {
    var i :| 0 <= i <= |text| - |other| && RegionMatchesIgnoreCase(text, i, other);
    var whole := prefix + text + suffix;
    forall j | |prefix| <= j < |prefix| + |text| ensures whole[j] == text[j - |prefix|] {
    }
    assert RegionMatchesIgnoreCase(whole, |prefix| + i, other);
  }

  /** A case-insensitive match is exactly a plain match between the lower-cased texts. */
  lemma {:induction false} ContainsIgnoreCaseIsLowerCaseContains(text: string, other: string)
    ensures ContainsIgnoreCase(text, other) <==> ContainsSlice(LowerAll(text), LowerAll(other))
  {
    var lowText, lowOther := LowerAll(text), LowerAll(other);
    forall i | 0 <= i <= |text| - |other|
      ensures RegionMatchesIgnoreCase(text, i, other) <==> SliceAt(lowText, i, lowOther)
    {
      var slice := lowText[i..i + |other|];
      forall k | 0 <= k < |other|
        ensures CharEqualsIgnoreCase(text[i + k], other[k]) <==> slice[k] == lowOther[k]
      {
        CharEqualsIgnoreCaseIsLowerEquality(text[i + k], other[k]);
      }
      if RegionMatchesIgnoreCase(text, i, other) {
        assert slice == lowOther;
      }
      if slice == lowOther {
        forall k | 0 <= k < |other| ensures CharEqualsIgnoreCase(text[i + k], other[k]) {
          assert slice[k] == lowOther[k];
        }
      }
    }
    if ContainsIgnoreCase(text, other) {
      var i :| 0 <= i <= |text| - |other| && RegionMatchesIgnoreCase(text, i, other);
      assert SliceAt(lowText, i, lowOther);
    }
    if ContainsSlice(lowText, lowOther) {
      var i :| 0 <= i <= |lowText| - |lowOther| && SliceAt(lowText, i, lowOther);
      assert RegionMatchesIgnoreCase(text, i, other);
    }
  }
}
