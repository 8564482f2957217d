/**
 The few Python string operations the vector-cleaning scripts rely on,
 restricted to what they do on ASCII text: `str.lower()`, `str.strip()` and
 the substitution `re.sub('[^a-z]+', '', s)` that deletes everything that is
 not a lower-case ASCII letter.
 */
module Strings {

  /** The characters the pattern `[a-z]` matches. */
  predicate IsLowerLetter(c: char) {
    'a' <= c <= 'z'
  }

  predicate IsUpperLetter(c: char) {
    'A' <= c <= 'Z'
  }

  predicate IsAsciiLetter(c: char) {
    IsLowerLetter(c) || IsUpperLetter(c)
  }

  /** A string made only of `a`..`z`. */
  predicate AllLowerLetters(s: string) {
    forall i :: 0 <= i < |s| ==> IsLowerLetter(s[i])
  }

  /** The characters for which Python's `str.isspace()` holds. */
  predicate IsSpace(c: char) {
    || '\t' <= c <= '\r' || '\U{001C}' <= c <= '\U{001F}' || c == ' '
    || c == '\U{0085}' || c == '\U{00A0}' || c == '\U{1680}'
    || '\U{2000}' <= c <= '\U{200A}' || c == '\U{2028}' || c == '\U{2029}'
    || c == '\U{202F}' || c == '\U{205F}' || c == '\U{3000}'
  }

  /** `str.lower()` on one character, for ASCII letters only. */
  function LowerChar(c: char): (d: char)
    ensures IsLowerLetter(d) <==> IsAsciiLetter(c)
    ensures IsUpperLetter(c) ==> d as int == c as int + ('a' as int - 'A' as int)
    ensures !IsUpperLetter(c) ==> d == c
  {
    if IsUpperLetter(c) then (c as int + ('a' as int - 'A' as int)) as char else c
  }

  /** `str.lower()`, character by character (ASCII case mapping only). */
  function Lower(s: string): string {
    if |s| == 0 then [] else [LowerChar(s[0])] + Lower(s[1..])
  }

  /** Lower-casing maps each character on its own and keeps the length. */
  lemma {:induction false} LowerPointwise(s: string)
    ensures |Lower(s)| == |s|
    ensures forall i :: 0 <= i < |s| ==> Lower(s)[i] == LowerChar(s[i])
  {
    if |s| > 0 {
      LowerPointwise(s[1..]);
    }
  }

  /** Leading whitespace removed. */
  function StripLeft(s: string): string {
    if |s| > 0 && IsSpace(s[0]) then StripLeft(s[1..]) else s
  }

  /** `StripLeft` cuts a prefix of whitespace and stops at the first other character. */
  lemma {:induction false} StripLeftCuts(s: string)
    ensures |StripLeft(s)| <= |s| && StripLeft(s) == s[|s| - |StripLeft(s)|..]
    ensures forall i :: 0 <= i < |s| - |StripLeft(s)| ==> IsSpace(s[i])
    ensures |StripLeft(s)| > 0 ==> !IsSpace(StripLeft(s)[0])
  {
    if |s| > 0 && IsSpace(s[0]) {
      var l := StripLeft(s[1..]);
      StripLeftCuts(s[1..]);
      assert StripLeft(s) == l;
      assert s[1..][|s| - 1 - |l|..] == s[|s| - |l|..];
      forall i | 1 <= i < |s| - |l| ensures IsSpace(s[i]) {
        assert s[i] == s[1..][i - 1];
      }
    }
  }

  /** Trailing whitespace removed. */
  function StripRight(s: string): string {
    if |s| > 0 && IsSpace(s[|s| - 1]) then StripRight(s[..|s| - 1]) else s
  }

  /** `StripRight` cuts a suffix of whitespace and stops at the last other character. */
  lemma {:induction false} StripRightCuts(s: string)
    ensures |StripRight(s)| <= |s| && StripRight(s) == s[..|StripRight(s)|]
    ensures forall i :: |StripRight(s)| <= i < |s| ==> IsSpace(s[i])
    ensures |StripRight(s)| > 0 ==> !IsSpace(StripRight(s)[|StripRight(s)| - 1])
  {
    if |s| > 0 && IsSpace(s[|s| - 1]) {
      var r := StripRight(s[..|s| - 1]);
      StripRightCuts(s[..|s| - 1]);
      assert StripRight(s) == r;
      assert s[..|s| - 1][..|r|] == s[..|r|];
      forall i | |r| <= i < |s| - 1 ensures IsSpace(s[i]) {
        assert s[i] == s[..|s| - 1][i];
      }
    }
  }

  /** `str.strip()` with no argument. */
  function Strip(s: string): string {
    StripRight(StripLeft(s))
  }

  /**
   `re.sub('[^a-z]+', '', s)`: every maximal run of characters outside
   `a`..`z` is replaced by nothing, so exactly the lower-case letters remain,
   in their order.
   */
  function KeepLowerLetters(s: string): (r: string)
    ensures AllLowerLetters(r)
    ensures |r| <= |s|
  {
    if |s| == 0 then []
    else if IsLowerLetter(s[0]) then [s[0]] + KeepLowerLetters(s[1..])
    else KeepLowerLetters(s[1..])
  }

  /** The filter keeps every occurrence of every lower-case letter. */
  lemma {:induction false} KeepLowerLettersKeepsLetters(s: string)
    ensures forall c :: IsLowerLetter(c) ==> multiset(KeepLowerLetters(s))[c] == multiset(s)[c]
  {
    if |s| > 0 {
      assert s == [s[0]] + s[1..];
      KeepLowerLettersKeepsLetters(s[1..]);
    }
  }

  /** The ASCII letters of `s`, in order, with their case untouched. */
  function AsciiLetters(s: string): string {
    if |s| == 0 then []
    else if IsAsciiLetter(s[0]) then [s[0]] + AsciiLetters(s[1..])
    else AsciiLetters(s[1..])
  }

  lemma {:induction false} LowerAppend(a: string, b: string)
    ensures Lower(a + b) == Lower(a) + Lower(b)
  {
    LowerPointwise(a + b);
    LowerPointwise(a);
    LowerPointwise(b);
  }

  lemma {:induction false} KeepLowerLettersAppend(a: string, b: string)
    ensures KeepLowerLetters(a + b) == KeepLowerLetters(a) + KeepLowerLetters(b)
  {
    if |a| > 0 {
      assert (a + b)[1..] == a[1..] + b;
      KeepLowerLettersAppend(a[1..], b);
    } else {
      assert a + b == b;
    }
  }

  /** Whitespace lower-cases to whitespace, and the filter drops all of it. */
  lemma {:induction false} KeepLowerLettersOfSpaces(s: string)
    requires forall i :: 0 <= i < |s| ==> IsSpace(s[i])
    ensures KeepLowerLetters(Lower(s)) == []
  {
    if |s| > 0 {
      assert Lower(s) == [LowerChar(s[0])] + Lower(s[1..]);
      assert Lower(s)[1..] == Lower(s[1..]);
      KeepLowerLettersOfSpaces(s[1..]);
    }
  }

  /** Text `a` followed by whitespace `b` keeps the same letters as `a` alone. */
  lemma KeepLowerLettersPadded(a: string, b: string)
    requires forall i :: 0 <= i < |b| ==> IsSpace(b[i])
    ensures KeepLowerLetters(Lower(a + b)) == KeepLowerLetters(Lower(a))
    ensures KeepLowerLetters(Lower(b + a)) == KeepLowerLetters(Lower(a))
  {
    KeepLowerLettersOfSpaces(b);
    LowerAppend(a, b);
    KeepLowerLettersAppend(Lower(a), Lower(b));
    LowerAppend(b, a);
    KeepLowerLettersAppend(Lower(b), Lower(a));
  }

  lemma KeepLowerLettersIgnoresStripLeft(s: string)
    ensures KeepLowerLetters(Lower(StripLeft(s))) == KeepLowerLetters(Lower(s))
  {
    StripLeftCuts(s);
    var l := StripLeft(s);
    var pre := s[..|s| - |l|];
    assert s == pre + l;
    forall i | 0 <= i < |pre| ensures IsSpace(pre[i]) {
      assert pre[i] == s[i];
    }
    KeepLowerLettersPadded(l, pre);
  }

  lemma KeepLowerLettersIgnoresStripRight(s: string)
    ensures KeepLowerLetters(Lower(StripRight(s))) == KeepLowerLetters(Lower(s))
  {
    StripRightCuts(s);
    var r := StripRight(s);
    var post := s[|r|..];
    assert s == r + post;
    forall i | 0 <= i < |post| ensures IsSpace(post[i]) {
      assert post[i] == s[|r| + i];
    }
    KeepLowerLettersPadded(r, post);
  }

  /** Cutting whitespace off either end does not change which letters the filter keeps. */
  lemma KeepLowerLettersIgnoresStrip(s: string)
    ensures KeepLowerLetters(Lower(Strip(s))) == KeepLowerLetters(Lower(s))
  {
    KeepLowerLettersIgnoresStripLeft(s);
    KeepLowerLettersIgnoresStripRight(StripLeft(s));
  }

  /** A lower-case letter is never whitespace, so stripping a cleaned word changes nothing. */
  lemma StripOfLetters(s: string)
    requires AllLowerLetters(s)
    ensures Strip(s) == s
  {
    assert |s| > 0 ==> !IsSpace(s[0]) && !IsSpace(s[|s| - 1]);
    assert StripLeft(s) == s;
  }

  lemma {:induction false} LowerOfLowerLetters(s: string)
    requires AllLowerLetters(s)
    ensures Lower(s) == s
  {
    LowerPointwise(s);
  }

  lemma {:induction false} KeepLowerLettersOfLowerLetters(s: string)
    requires AllLowerLetters(s)
    ensures KeepLowerLetters(s) == s
  {
    if |s| > 0 {
      KeepLowerLettersOfLowerLetters(s[1..]);
    }
  }

  /**
   Filtering after lower-casing keeps exactly the ASCII letters of the
   original text, each mapped to lower case.
   */
  lemma {:induction false} KeepLowerLettersOfLower(s: string)
    ensures KeepLowerLetters(Lower(s)) == Lower(AsciiLetters(s))
  {
    if |s| > 0 {
      var t := Lower(s);
      assert t == [LowerChar(s[0])] + Lower(s[1..]);
      assert t[1..] == Lower(s[1..]);
      KeepLowerLettersOfLower(s[1..]);
      if IsAsciiLetter(s[0]) {
        assert AsciiLetters(s) == [s[0]] + AsciiLetters(s[1..]);
        LowerAppend([s[0]], AsciiLetters(s[1..]));
      }
    }
  }
}
