/**
 * The two regular expressions of update-flux-versions.js, written as
 * leftmost-match scanners:
 *   /github.com\/influxdata\/flux v(\d+\.\d+\.\d+)/   on a go.mod body, and
 *   /\/v(\d.*)$/                                      on a redirect path.
 * `match` returning null is `None`.
 */
module Patterns {
  import opened Wrappers
  import opened Text

  /**
   * The least index in `i..n` at which `matches` holds: a regular expression
   * without the `g` flag reports its leftmost match.
   */
  function Leftmost(matches: nat -> bool, i: nat, n: nat): (r: Option<nat>)
    requires i <= n
    ensures r.Some? ==> i <= r.value <= n && matches(r.value)
    ensures r.Some? ==> forall j :: i <= j < r.value ==> !matches(j)
    ensures r.None? ==> forall j :: i <= j <= n ==> !matches(j)
    decreases n - i
  {
    if matches(i) then Some(i)
    else if i == n then None
    else Leftmost(matches, i + 1, n)
  }

  // ---------------------------------------------------------------------------
  // The Flux requirement in a go.mod body

  /** The text before the unescaped `.` of "github.com", which matches any one character but a line terminator. */
  const ModuleHead := "github"
  /** The text after that `.`, up to the version. */
  const ModuleTail := "com/influxdata/flux v"
  /** Where the version starts, counted from the start of a match. */
  const VersionOffset := 28

  /** `\d+\.\d+\.\d+` matches at `j`: greedy digit runs separated by two dots. */
  predicate TripleAt(s: string, j: nat)
    requires j <= |s|
  {
    var a := DigitRun(s, j);
    a > 0 && j + a < |s| && s[j + a] == '.' &&
    var b := DigitRun(s, j + a + 1);
    b > 0 && j + a + 1 + b < |s| && s[j + a + 1 + b] == '.' &&
    DigitRun(s, j + a + b + 2) > 0
  }

  /** Where the triple that starts at `j` ends. */
  function TripleEnd(s: string, j: nat): (e: nat)
    requires j <= |s| && TripleAt(s, j)
    ensures j < e <= |s|
  {
    var a := DigitRun(s, j);
    var b := DigitRun(s, j + a + 1);
    j + a + b + 2 + DigitRun(s, j + a + b + 2)
  }

  /** The whole pattern matches at index `i`. */
  predicate FluxMatchAt(s: string, i: nat)
    requires i <= |s|
  {
    && i + VersionOffset <= |s|
    && s[i..i + 6] == ModuleHead
    && !IsLineTerminator(s[i + 6])
    && s[i + 7..i + VersionOffset] == ModuleTail
    && TripleAt(s, i + VersionOffset)
  }

  /** Capture group 1 of a match at `i`. */
  function FluxCapture(s: string, i: nat): (v: string)
    requires i <= |s| && FluxMatchAt(s, i)
  {
    s[i + VersionOffset..TripleEnd(s, i + VersionOffset)]
  }

  /** `v` is three non-empty digit runs joined by dots at `p` and `q`. */
  predicate DottedAt(v: string, p: nat, q: nat) {
    && 0 < p && p + 1 < q && q + 1 < |v| && v[p] == '.' && v[q] == '.'
    && forall k :: 0 <= k < |v| && k != p && k != q ==> IsDigit(v[k])
  }

  /** `v` is three non-empty digit runs joined by two dots. */
  ghost predicate IsDottedTriple(v: string) {
    exists p, q :: DottedAt(v, p, q)
  }

  /** The Flux pattern as a test on start indices. */
  function FluxMatches(body: string): (matches: nat -> bool) {
    (i: nat) => i <= |body| && FluxMatchAt(body, i)
  }

  /** What the leftmost-match scan of the Flux pattern reports about the body. */
  lemma FluxScan(body: string)
    ensures var m := Leftmost(FluxMatches(body), 0, |body|);
            && (m.None? <==> forall i :: 0 <= i <= |body| ==> !FluxMatchAt(body, i))
            && (m.Some? ==> m.value <= |body| && FluxMatchAt(body, m.value))
            && (m.Some? ==> forall j :: 0 <= j < m.value ==> !FluxMatchAt(body, j))
  {
    var f := FluxMatches(body);
    forall i: nat | i <= |body| ensures f(i) == FluxMatchAt(body, i) { }
  }

  /** `body.match(/github.com\/influxdata\/flux v(\d+\.\d+\.\d+)/)?.[1]` */
  function FluxRequirement(body: string): (r: Option<string>)
  {
    var m := Leftmost(FluxMatches(body), 0, |body|);
    if m.None? then None
    else
      FluxScan(body);
      Some(FluxCapture(body, m.value))
  }

  /**
   * There is no result exactly when the pattern matches nowhere; otherwise the
   * result is the capture of the leftmost match.
   */
  lemma FluxRequirementSpec(body: string)
    ensures FluxRequirement(body).None? <==> forall i :: 0 <= i <= |body| ==> !FluxMatchAt(body, i)
    ensures FluxRequirement(body).Some? ==>
              exists i :: 0 <= i <= |body| && FluxMatchAt(body, i) && FluxRequirement(body).value == FluxCapture(body, i)
                && forall j :: 0 <= j < i ==> !FluxMatchAt(body, j)
  {
    FluxScan(body);
  }

  /** A capture is a dotted triple, and the digit run it ends with is maximal. */
  lemma FluxCaptureShape(s: string, i: nat)
    requires i <= |s| && FluxMatchAt(s, i)
    ensures IsDottedTriple(FluxCapture(s, i))
    ensures TripleEnd(s, i + VersionOffset) == |s| || !IsDigit(s[TripleEnd(s, i + VersionOffset)])
  {
    var j := i + VersionOffset;
    var a := DigitRun(s, j);
    var b := DigitRun(s, j + a + 1);
    var v := FluxCapture(s, i);
    forall k | 0 <= k < |v| ensures v[k] == s[j + k] { }
    assert DottedAt(v, a, a + 1 + b);
  }

  /** Digit runs of the given lengths separated by dots make a triple. */
  lemma TripleOfLengths(s: string, j: nat, a: nat, b: nat, c: nat)
    requires 0 < a && 0 < b && 0 < c && j + a + b + c + 2 <= |s|
    requires DigitRun(s, j) == a && s[j + a] == '.'
    requires DigitRun(s, j + a + 1) == b && s[j + a + 1 + b] == '.'
    requires DigitRun(s, j + a + b + 2) >= c
    ensures TripleAt(s, j) && TripleEnd(s, j) >= j + a + b + c + 2
  {
  }

  /** Dots at `p` and `q` of a triple `v` placed at `j` split it into the digit runs the pattern reads. */
  lemma TripleOfDotted(s: string, j: nat, v: string, p: nat, q: nat)
    requires j + |v| <= |s| && s[j..j + |v|] == v && DottedAt(v, p, q)
    ensures TripleAt(s, j)
    ensures DigitRun(s, j) == p && DigitRun(s, j + p + 1) == q - p - 1
    ensures TripleEnd(s, j) >= j + |v|
  {
    DottedRuns(s, j, v, p, q);
    TripleOfLengths(s, j, p, q - p - 1, |v| - q - 1);
  }

  /** The digit runs of a triple `v` placed at `j`, read in `s`. */
  lemma DottedRuns(s: string, j: nat, v: string, p: nat, q: nat)
    requires j + |v| <= |s| && s[j..j + |v|] == v && DottedAt(v, p, q)
    ensures DigitRun(s, j) == p && s[j + p] == '.'
    ensures DigitRun(s, j + p + 1) == q - p - 1 && s[j + q] == '.'
    ensures DigitRun(s, j + q + 1) >= |v| - q - 1
  {
    PlacedDigits(s, j, v, 0, p);
    PlacedDigits(s, j, v, p + 1, q);
    PlacedDigits(s, j, v, q + 1, |v|);
    assert s[j + p] == v[p] && s[j + q] == v[q];
    DigitRunUnique(s, j, p);
    DigitRunUnique(s, j + p + 1, q - p - 1);
    DigitRunAtLeast(s, j + q + 1, |v| - q - 1);
  }

  /** Digits of `v`, placed at `j` in `s`, are digits of `s`. */
  lemma PlacedDigits(s: string, j: nat, v: string, lo: nat, hi: nat)
    requires j + |v| <= |s| && s[j..j + |v|] == v && lo <= hi <= |v|
    requires forall k :: lo <= k < hi ==> IsDigit(v[k])
    ensures forall k :: j + lo <= k < j + hi ==> IsDigit(s[k])
  {
    forall k | j + lo <= k < j + hi ensures IsDigit(s[k]) {
      assert s[k] == v[k - j];
    }
  }

  /**
   * The scanner misses no match of the regular expression: wherever the fixed
   * text is followed by any three digit runs joined by dots, the pattern
   * matches.
   */
  lemma FluxMatchComplete(s: string, i: nat, v: string, p: nat, q: nat)
    requires i + VersionOffset + |v| <= |s|
    requires s[i..i + 6] == ModuleHead && !IsLineTerminator(s[i + 6]) && s[i + 7..i + VersionOffset] == ModuleTail
    requires s[i + VersionOffset..i + VersionOffset + |v|] == v && DottedAt(v, p, q)
    ensures FluxMatchAt(s, i)
  {
    TripleOfDotted(s, i + VersionOffset, v, p, q);
  }

  /** The text the Flux pattern needs before the version, with an ordinary '.' in "github.com". */
  const ModuleLine := "github.com/influxdata/flux v"

  /** Every match starts with the 'g' of "github". */
  lemma NoFluxMatchWithoutG(s: string, m: nat)
    requires m < |s| && s[m] != 'g'
    ensures !FluxMatchAt(s, m)
  {
    if m + 6 <= |s| {
      assert s[m..m + 6][0] == s[m];
    }
  }

  /** A match at `i` that no earlier match precedes is the one `FluxRequirement` captures. */
  lemma FluxRequirementLeftmost(s: string, i: nat)
    requires i <= |s| && FluxMatchAt(s, i)
    requires forall m :: 0 <= m < i ==> !FluxMatchAt(s, m)
    ensures FluxRequirement(s) == Some(FluxCapture(s, i))
  {
    FluxScan(s);
    var m := Leftmost(FluxMatches(s), 0, |s|);
    assert m.Some?;
    assert !(m.value < i) && !(i < m.value);
  }

  /** Three digit runs joined by dots, not followed by a digit, are a triple that ends where they end. */
  lemma TripleOfRuns(s: string, j: nat, v: string, p: nat, q: nat)
    requires j + |v| <= |s| && s[j..j + |v|] == v && DottedAt(v, p, q)
    requires j + |v| == |s| || !IsDigit(s[j + |v|])
    ensures TripleAt(s, j) && TripleEnd(s, j) == j + |v|
  {
    TripleOfDotted(s, j, v, p, q);
    PlacedDigits(s, j, v, q + 1, |v|);
    DigitRunUnique(s, j + q + 1, |v| - q - 1);
  }

  /** `ModuleLine` followed by three digit runs joined by dots is a match, and the capture is exactly those runs. */
  lemma FluxMatchOfLine(s: string, i: nat, v: string, p: nat, q: nat)
    requires i + VersionOffset + |v| <= |s|
    requires s[i..i + VersionOffset] == ModuleLine && s[i + VersionOffset..i + VersionOffset + |v|] == v
    requires DottedAt(v, p, q)
    requires i + VersionOffset + |v| == |s| || !IsDigit(s[i + VersionOffset + |v|])
    ensures FluxMatchAt(s, i) && FluxCapture(s, i) == v
  {
    var j := i + VersionOffset;
    assert s[i..i + 6] == s[i..j][..6] == ModuleHead;
    assert s[i + 6] == s[i..j][6] == '.';
    assert s[i + 7..j] == s[i..j][7..] == ModuleTail;
    TripleOfRuns(s, j, v, p, q);
  }

  /**
   * A go.mod line "github.com/influxdata/flux va.b.c…" preceded by text
   * without a 'g' yields "a.b.c", whatever non-digit follows.
   */
  lemma FluxRequirementOfLine(pre: string, v: string, rest: string, p: nat, q: nat)
    requires 'g' !in pre
    requires DottedAt(v, p, q)
    requires rest == [] || !IsDigit(rest[0])
    ensures FluxRequirement(pre + ModuleLine + v + rest) == Some(v)
  {
    var s := pre + ModuleLine + v + rest;
    var i := |pre|;
    LineParts(pre, v, rest);
    FluxMatchOfLine(s, i, v, p, q);
    forall m | 0 <= m < i ensures !FluxMatchAt(s, m) {
      NoFluxMatchWithoutG(s, m);
    }
    FluxRequirementLeftmost(s, i);
  }

  /** Where the parts of `pre + ModuleLine + v + rest` stand. */
  lemma LineParts(pre: string, v: string, rest: string)
    requires 'g' !in pre
    ensures var s, i := pre + ModuleLine + v + rest, |pre|;
            && s[i..i + VersionOffset] == ModuleLine
            && s[i + VersionOffset..i + VersionOffset + |v|] == v
            && (rest == [] || s[i + VersionOffset + |v|] == rest[0])
            && forall m :: 0 <= m < i ==> s[m] != 'g'
  {
    var s := pre + ModuleLine + v + rest;
    forall m | 0 <= m < |pre| ensures s[m] == pre[m] { }
  }

  /** A tab-indented requirement line of a go.mod body. */
  lemma FluxRequirementExample()
    ensures FluxRequirement("\t" + ModuleLine + "2.3.4" + "\n") == Some("2.3.4")
  {
    var v := "2.3.4";
    assert DottedAt(v, 1, 3);
    FluxRequirementOfLine("\t", v, "\n", 1, 3);
  }

  /** A pre-release suffix is not part of the capture. */
  lemma FluxRequirementPreRelease()
    ensures FluxRequirement("require " + ModuleLine + "0.65.0" + "-rc\n") == Some("0.65.0")
  {
    var v := "0.65.0";
    assert DottedAt(v, 1, 4);
    FluxRequirementOfLine("require ", v, "-rc\n", 1, 4);
  }

  // ---------------------------------------------------------------------------
  // The release tag in the redirect path of "releases/latest"

  /** `/\/v(\d.*)$/` matches at index `i`: "/v", a digit, then no line terminator up to the end. */
  predicate TagAt(p: string, i: nat)
    requires i <= |p|
  {
    i + 3 <= |p| && p[i] == '/' && p[i + 1] == 'v' && IsDigit(p[i + 2]) &&
    forall k :: i + 3 <= k < |p| ==> !IsLineTerminator(p[k])
  }

  /** The tag pattern as a test on start indices. */
  function TagMatches(path: string): (matches: nat -> bool) {
    (i: nat) => i <= |path| && TagAt(path, i)
  }

  /** What the leftmost-match scan of the tag pattern reports about the path. */
  lemma TagScan(path: string)
    ensures var m := Leftmost(TagMatches(path), 0, |path|);
            && (m.None? <==> forall i :: 0 <= i <= |path| ==> !TagAt(path, i))
            && (m.Some? ==> m.value <= |path| && TagAt(path, m.value))
            && (m.Some? ==> forall j :: 0 <= j < m.value ==> !TagAt(path, j))
  {
    var f := TagMatches(path);
    forall i: nat | i <= |path| ensures f(i) == TagAt(path, i) { }
  }

  /** `path.match(/\/v(\d.*)$/)?.[1]`: the rest of the path after the leftmost "/v" that a digit follows. */
  function ReleaseTag(path: string): (r: Option<string>)
    ensures r.None? <==> forall i :: 0 <= i <= |path| ==> !TagAt(path, i)
    ensures r.Some? ==> |r.value| > 0 && IsDigit(r.value[0])
    ensures r.Some? ==> |r.value| + 2 <= |path| && path[|path| - |r.value|..] == r.value
    ensures r.Some? ==> path[|path| - |r.value| - 2..|path| - |r.value|] == "/v"
    ensures r.Some? ==> forall j :: 0 <= j < |path| - |r.value| - 2 ==> !TagAt(path, j)
    ensures r.Some? ==> TagAt(path, |path| - |r.value| - 2)
  {
    TagScan(path);
    match Leftmost(TagMatches(path), 0, |path|)
    case None => None
    case Some(i) =>
      assert path[i..i + 2] == "/v";
      Some(path[i + 2..])
  }

  /** A path `pre + "/v" + tag`, where `pre` has no 'v' and the tag starts with a digit and has no line terminator, yields the tag. */
  lemma ReleaseTagOfPath(pre: string, tag: string)
    requires 'v' !in pre
    requires |tag| > 0 && IsDigit(tag[0])
    requires forall k :: 0 <= k < |tag| ==> !IsLineTerminator(tag[k])
    ensures ReleaseTag(pre + "/v" + tag) == Some(tag)
  {
    var p := pre + "/v" + tag;
    var i := |pre|;
    assert p[i] == '/' && p[i + 1] == 'v' && p[i + 2] == tag[0];
    assert forall k :: i + 3 <= k < |p| ==> p[k] == tag[k - i - 2];
    assert TagAt(p, i);
    forall m | 0 <= m < i ensures !TagAt(p, m) {
      if m + 1 < i {
        assert p[m + 1] == pre[m + 1];
      } else {
        assert p[m + 1] == '/';
      }
    }
    TagScan(p);
    assert p[i + 2..] == tag;
  }

  /** A redirect to the release page of Flux v2.9.1 yields "2.9.1". */
  lemma ReleaseTagExample()
    ensures ReleaseTag("/influxdata/flux/releases/tag" + "/v" + "2.9.1") == Some("2.9.1")
  {
    ReleaseTagOfPath("/influxdata/flux/releases/tag", "2.9.1");
  }
}
