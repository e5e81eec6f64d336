/** Character classes and the few string operations of Python's `str` that
    the application relies on: lower-casing, prefix and substring tests,
    `replace(pat, "")`, `str(n)` and `int(digits)`.
    Character classes cover the ASCII range only. */
module Text {

  predicate IsDigit(c: char) { '0' <= c <= '9' }

  predicate IsUpper(c: char) { 'A' <= c <= 'Z' }

  predicate IsLetter(c: char) { IsUpper(c) || 'a' <= c <= 'z' }

  /** `str.isalnum` on one ASCII character. */
  predicate IsAlnum(c: char) { IsLetter(c) || IsDigit(c) }

  /** `str.isspace` on the ASCII range: tab, line feed, vertical tab, form
      feed, carriage return, the separators 0x1C-0x1F, and the space. */
  predicate IsSpace(c: char) {
    c == ' ' || '\U{0009}' <= c <= '\U{000D}' || '\U{001C}' <= c <= '\U{001F}'
  }

  function ToLower(c: char): (r: char)
    ensures !IsUpper(r)
    ensures IsUpper(c) ==> r as int == c as int + 32
    ensures !IsUpper(c) ==> r == c
  {
    if IsUpper(c) then (c as int + 32) as char else c
  }

  /** `str.lower`. */
  function Lower(s: string): (r: string)
    ensures |r| == |s|
    ensures forall i :: 0 <= i < |s| ==> r[i] == ToLower(s[i])
  {
    seq(|s|, i requires 0 <= i < |s| => ToLower(s[i]))
  }

  /** `str.startswith`. */
  predicate StartsWith(s: string, prefix: string) {
    |prefix| <= |s| && s[..|prefix|] == prefix
  }

  /** `pat` occurs in `s` starting at index `i`. */
  predicate OccursAt(s: string, pat: string, i: int) {
    0 <= i && i + |pat| <= |s| && s[i..i + |pat|] == pat
  }

  /** `pat in s`. */
  predicate Contains(s: string, pat: string)
    decreases |s|
  {
    StartsWith(s, pat) || (|s| > 0 && Contains(s[1..], pat))
  }

  lemma {:induction false} NotContainsLonger(s: string, pat: string)
    requires |s| < |pat|
    ensures !Contains(s, pat)
    decreases |s|
  {
    if |s| > 0 {
      NotContainsLonger(s[1..], pat);
    }
  }

  lemma {:induction false} NotContainsWithoutFirst(s: string, pat: string)
    requires |pat| > 0 && pat[0] !in s
    ensures !Contains(s, pat)
    decreases |s|
  {
    if |s| > 0 {
      assert forall k :: 0 <= k < |s[1..]| ==> s[1..][k] == s[k + 1];
      NotContainsWithoutFirst(s[1..], pat);
    }
  }

  /** `pat in s.lower()`, the application's case-insensitive keyword test
      (every keyword it looks for is already lower case). */
  predicate ContainsIgnoringCase(s: string, pat: string) {
    Contains(Lower(s), pat)
  }

  /** `s.replace(pat, "")`: occurrences are removed left to right, without
      overlap, scanning on after each removed occurrence. */
  function RemoveAll(s: string, pat: string): (r: string)
    requires |pat| > 0
    ensures |r| <= |s|
    ensures !Contains(s, pat) ==> r == s
    ensures Contains(s, pat) ==> |r| + |pat| <= |s|
    ensures (|s| - |r|) % |pat| == 0
    decreases |s|
  {
    if |s| == 0 then s
    else if StartsWith(s, pat) then
      var r := RemoveAll(s[|pat|..], pat);
      ShiftByModulus(|s| - |pat| - |r|, |pat|);
      r
    else
      assert s == [s[0]] + s[1..];
      [s[0]] + RemoveAll(s[1..], pat)
  }

  /** `i` is the first position where `pat` occurs in `s`. */
  predicate FirstOccurrence(s: string, pat: string, i: int) {
    OccursAt(s, pat, i) && forall j :: 0 <= j < i ==> !OccursAt(s, pat, j)
  }

  /** Removing every occurrence from `s` gives the text before `i` followed
      by the removal applied to what comes after the occurrence at `i`. */
  predicate SplitsAt(s: string, pat: string, i: nat)
    requires |pat| > 0 && i + |pat| <= |s|
  {
    RemoveAll(s, pat) == s[..i] + RemoveAll(s[i + |pat|..], pat)
  }

  /** `str.replace` removes the leftmost occurrence and carries on after
      it: a string that holds the pattern becomes the text before its first
      occurrence followed by the rest, after that occurrence, with the
      pattern removed. */
  lemma RemoveAllLeftmost(s: string, pat: string)
    requires |pat| > 0
    ensures Contains(s, pat) ==>
      exists i :: FirstOccurrence(s, pat, i) && SplitsAt(s, pat, i)
  {
    if Contains(s, pat) {
      var i := LeftmostRemoval(s, pat);
    }
  }

  /** The position of the first occurrence, and the removal split there. */
  lemma {:induction false} LeftmostRemoval(s: string, pat: string) returns (i: nat)
    requires |pat| > 0 && Contains(s, pat)
    ensures FirstOccurrence(s, pat, i)
    ensures SplitsAt(s, pat, i)
    decreases |s|, 1
  {
    if StartsWith(s, pat) {
      i := LeftmostAtStart(s, pat);
    } else {
      i := LeftmostAfterHead(s, pat);
    }
  }

  lemma LeftmostAtStart(s: string, pat: string) returns (i: nat)
    requires |pat| > 0 && StartsWith(s, pat)
    ensures FirstOccurrence(s, pat, i)
    ensures SplitsAt(s, pat, i)
  {
    i := 0;
    assert s[..i] == [];
  }

  /** When `s` does not start with the pattern, the first occurrence in `s`
      is one past the first occurrence in `s[1..]`. */
  lemma {:induction false} LeftmostAfterHead(s: string, pat: string) returns (i: nat)
    requires |pat| > 0 && Contains(s, pat) && !StartsWith(s, pat)
    ensures FirstOccurrence(s, pat, i)
    ensures SplitsAt(s, pat, i)
    decreases |s|, 0
  {
    var k := LeftmostRemoval(s[1..], pat);
    i := k + 1;
    FirstOccurrenceShift(s, pat, k, i);
    RejoinAfterFirst(s, pat, k, i);
  }

  /** A removal that splits at `k` in `s[1..]` splits at `i == k + 1` in `s`
      when `s` does not start with the pattern. */
  lemma RejoinAfterFirst(s: string, pat: string, k: nat, i: nat)
    requires |pat| > 0 && |s| > 0 && !StartsWith(s, pat)
    requires i == k + 1 && i + |pat| <= |s|
    requires RemoveAll(s[1..], pat) == s[1..][..k] + RemoveAll(s[1..][k + |pat|..], pat)
    ensures SplitsAt(s, pat, i)
  {
    var rest := RemoveAll(s[i + |pat|..], pat);
    TailOfTail(s, k + |pat|, i + |pat|);
    SameRemoval(s[1..][k + |pat|..], s[i + |pat|..], pat);
    RemoveAllKeepsHead(s, pat);
    ConsPrefix(s, k, i, rest);
  }

  lemma RemoveAllKeepsHead(s: string, pat: string)
    requires |pat| > 0 && |s| > 0 && !StartsWith(s, pat)
    ensures RemoveAll(s, pat) == [s[0]] + RemoveAll(s[1..], pat)
  {
  }

  lemma SameRemoval(x: string, y: string, pat: string)
    requires |pat| > 0 && x == y
    ensures RemoveAll(x, pat) == RemoveAll(y, pat)
  {
  }

  lemma TailOfTail(s: string, n: nat, m: nat)
    requires m == n + 1 && m <= |s|
    ensures s[1..][n..] == s[m..]
  {
  }

  lemma ConsPrefix(s: string, k: nat, i: nat, rest: string)
    requires i == k + 1 && i <= |s|
    ensures [s[0]] + (s[1..][..k] + rest) == s[..i] + rest
  {
    assert s[..i] == [s[0]] + s[1..][..k];
  }

  lemma FirstOccurrenceShift(s: string, pat: string, k: nat, i: nat)
    requires |s| > 0 && !StartsWith(s, pat) && FirstOccurrence(s[1..], pat, k) && i == k + 1
    ensures FirstOccurrence(s, pat, i)
  {
    OccursAtShift(s, pat, k);
    forall j | 0 <= j < k + 1 ensures !OccursAt(s, pat, j) {
      if j > 0 {
        OccursAtShift(s, pat, j - 1);
      }
    }
  }

  lemma OccursAtShift(s: string, pat: string, i: nat)
    requires |s| > 0
    ensures OccursAt(s, pat, i + 1) <==> OccursAt(s[1..], pat, i)
  {
    if i + 1 + |pat| <= |s| {
      assert s[i + 1..i + 1 + |pat|] == s[1..][i..i + |pat|];
    }
  }

  lemma ShiftByModulus(a: int, k: int)
    requires k > 0 && a % k == 0
    ensures (a + k) % k == 0
  {
    var q, d, m := a / k, (a + k) / k, (a + k) % k;
    assert a == k * q;
    assert a + k == k * d + m && 0 <= m < k;
    var n := d - q - 1;
    assert k * n == k * d - k * q - k;
    assert m == -(k * n);
    MulSign(k, n);
  }

  lemma MulSign(k: int, n: int)
    requires k > 0
    ensures n >= 1 ==> k * n >= k
    ensures n <= -1 ==> k * n <= -k
  {
    if n >= 1 {
      assert k * n == k * (n - 1) + k;
    }
    if n <= -1 {
      assert k * n == k * (n + 1) - k;
    }
  }

  function DigitChar(d: nat): (c: char)
    requires d < 10
    ensures IsDigit(c)
  {
    ('0' as int + d) as char
  }

  function DigitValue(c: char): (d: nat)
    requires IsDigit(c)
    ensures d < 10 && DigitChar(d) == c
  {
    c as int - '0' as int
  }

  predicate AllDigits(s: string) {
    forall i :: 0 <= i < |s| ==> IsDigit(s[i])
  }

  /** `int(s)` on a string of decimal digits. */
  function DigitsValue(s: string): nat
    requires AllDigits(s)
  {
    if |s| == 0 then 0 else DigitsValue(s[..|s| - 1]) * 10 + DigitValue(s[|s| - 1])
  }

  /** `str(n)` for a non-negative integer. */
  function NatToString(n: nat): (r: string)
    ensures |r| > 0 && AllDigits(r)
    ensures |r| == 1 <==> n < 10
    ensures |r| > 1 ==> r[0] != '0'
  {
    if n < 10 then [DigitChar(n)] else NatToString(n / 10) + [DigitChar(n % 10)]
  }

  /** `int(str(n)) == n`. */
  lemma {:induction false} NatToStringRoundTrip(n: nat)
    ensures DigitsValue(NatToString(n)) == n
  {
    if n >= 10 {
      var s := NatToString(n);
      assert s[..|s| - 1] == NatToString(n / 10);
      NatToStringRoundTrip(n / 10);
    }
  }

  lemma RemoveLeading(pat: string, rest: string)
    requires |pat| > 0
    ensures RemoveAll(pat + rest, pat) == RemoveAll(rest, pat)
  {
    assert (pat + rest)[..|pat|] == pat;
    assert (pat + rest)[|pat|..] == rest;
  }

  lemma KeepFirst(c: char, rest: string, pat: string)
    requires |pat| > 0 && !StartsWith([c] + rest, pat)
    ensures RemoveAll([c] + rest, pat) == [c] + RemoveAll(rest, pat)
  {
    assert ([c] + rest)[1..] == rest;
  }
}
