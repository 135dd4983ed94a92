/** Character classes and digit-run scanning used by the version parser and the regexes. */
module Text {

  /** `\d` of a JavaScript regular expression, and the digits `parseFloat` reads. */
  predicate IsDigit(c: char) {
    '0' <= c <= '9'
  }

  /** The characters that `.` in a JavaScript regular expression (without the `s` flag) does not match. */
  predicate IsLineTerminator(c: char) {
    c == '\n' || c == '\r' || c == '\U{2028}' || c == '\U{2029}'
  }

  predicate AllDigits(s: string) {
    forall k :: 0 <= k < |s| ==> IsDigit(s[k])
  }

  /** The length of the maximal run of digits in `s` that starts at index `j`. */
  function DigitRun(s: string, j: nat): (n: nat)
    requires j <= |s|
    ensures j + n <= |s|
    ensures forall k :: j <= k < j + n ==> IsDigit(s[k])
    ensures j + n == |s| || !IsDigit(s[j + n])
    decreases |s| - j
  {
    if j < |s| && IsDigit(s[j]) then 1 + DigitRun(s, j + 1) else 0
  }

  /** A digit run is determined by where it starts: any all-digit stretch that is not followed by a digit is the one `DigitRun` finds. */
  lemma {:induction false} DigitRunUnique(s: string, j: nat, n: nat)
    requires j + n <= |s|
    requires forall k :: j <= k < j + n ==> IsDigit(s[k])
    requires j + n == |s| || !IsDigit(s[j + n])
    ensures DigitRun(s, j) == n
    decreases n
  {
    if n > 0 {
      DigitRunUnique(s, j + 1, n - 1);
    }
  }

  /** A digit run is at least as long as any stretch of digits starting where it starts. */
  lemma {:induction false} DigitRunAtLeast(s: string, j: nat, n: nat)
    requires j + n <= |s|
    requires forall k :: j <= k < j + n ==> IsDigit(s[k])
    ensures DigitRun(s, j) >= n
    decreases n
  {
    if n > 0 {
      DigitRunAtLeast(s, j + 1, n - 1);
    }
  }

  /** A stretch of `s` whose every character is a digit, as a string of its own. */
  lemma DigitsOf(s: string, lo: nat, hi: nat)
    requires lo <= hi <= |s|
    requires forall k :: lo <= k < hi ==> IsDigit(s[k])
    ensures AllDigits(s[lo..hi])
  {
    var run := s[lo..hi];
    forall k | 0 <= k < |run| ensures IsDigit(run[k]) {
      assert run[k] == s[lo + k];
    }
  }

  /** The natural number a string of decimal digits denotes. */
  function DigitsValue(ds: string): (n: nat)
    requires AllDigits(ds)
    decreases |ds|
  {
    if ds == [] then 0
    else
      assert AllDigits(ds[..|ds| - 1]);
      DigitsValue(ds[..|ds| - 1]) * 10 + (ds[|ds| - 1] as int - '0' as int)
  }

  function Pow10(n: nat): (p: nat)
    ensures p >= 1
  {
    if n == 0 then 1 else 10 * Pow10(n - 1)
  }
}
