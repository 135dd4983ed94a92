/**
 * The version arrays of update-flux-versions.js: every product tag loses its
 * first 'v', the tags whose leading decimal value is below a floor are
 * dropped, and the survivors are reversed.
 *
 * `parseFloat` is modelled as the exact value of the longest `digits[.digits]`
 * prefix of the tag; a tag without one is NaN and fails every comparison.
 */
module ProductVersions {
  import opened Wrappers
  import opened Text

  /** `tag.replace('v', '')`: the first 'v' anywhere in the tag is removed, the rest is kept. */
  function StripFirstV(s: string): (r: string)
    ensures 'v' !in s ==> r == s
    ensures 'v' in s ==> |r| == |s| - 1
    decreases |s|
  {
    if s == [] then []
    else if s[0] == 'v' then s[1..]
    else [s[0]] + StripFirstV(s[1..])
  }

  /** Where the first 'v' stands, that one character is cut out. */
  lemma {:induction false} StripFirstVAt(s: string, i: nat)
    requires i < |s| && s[i] == 'v' && 'v' !in s[..i]
    ensures StripFirstV(s) == s[..i] + s[i + 1..]
    decreases i
  {
    if i > 0 {
      assert s[0] == s[..i][0];
      assert s[1..][..i - 1] == s[1..i];
      assert 'v' !in s[1..][..i - 1] by {
        forall k | 0 <= k < i - 1 ensures s[1..i][k] != 'v' {
          assert s[1..i][k] == s[..i][k + 1];
        }
      }
      StripFirstVAt(s[1..], i - 1);
      assert s[..i] == [s[0]] + s[1..][..i - 1];
      assert s[i + 1..] == s[1..][i..];
    }
  }

  /** A leading 'v' goes; a tag without one is unchanged. */
  lemma StripFirstVExamples()
    ensures StripFirstV("v1.8") == "1.8"
    ensures StripFirstV("1.8") == "1.8"
  {
  }

  /** Only the first 'v' goes, wherever it stands. */
  lemma StripFirstVInside()
    ensures StripFirstV("dev-v1.8") == "de-v1.8"
  {
    StripFirstVAt("dev-v1.8", 2);
    assert "dev-v1.8"[..2] == "de" && "dev-v1.8"[3..] == "-v1.8";
  }

  /** An exact decimal number: `mantissa / 10^scale`. */
  datatype Decimal = Decimal(mantissa: nat, scale: nat)

  predicate SameValue(x: Decimal, y: Decimal) {
    x.mantissa * Pow10(y.scale) == y.mantissa * Pow10(x.scale)
  }

  /** `x >= y` on the values the two decimals denote. */
  predicate AtLeast(x: Decimal, y: Decimal) {
    x.mantissa * Pow10(y.scale) >= y.mantissa * Pow10(x.scale)
  }

  /** The floor of the InfluxDB OSS version array, 1.7. */
  const OssFloor := Decimal(17, 1)
  /** The floor of the InfluxDB Enterprise version array, 1.9. */
  const EnterpriseFloor := Decimal(19, 1)

  /** End of the longest `digits[.digits]` prefix of `s` (0 when `s` does not start with a digit). */
  function NumericPrefixEnd(s: string): (e: nat)
    ensures e <= |s|
  {
    var a := DigitRun(s, 0);
    if a > 0 && a + 1 < |s| && s[a] == '.' && IsDigit(s[a + 1]) then a + 1 + DigitRun(s, a + 1) else a
  }

  /**
   * The value `parseFloat` reads from the start of `s`; `None` is NaN. The
   * digits before the dot are the whole part, those after it the fraction.
   */
  function LeadingDecimal(s: string): (r: Option<Decimal>)
    ensures r.None? <==> s == [] || !IsDigit(s[0])
  {
    var a := DigitRun(s, 0);
    var e := NumericPrefixEnd(s);
    if a == 0 then None
    else
      DigitsOf(s, 0, a);
      var whole := DigitsValue(s[0..a]);
      if e == a then Some(Decimal(whole, 0))
      else
        DigitsOf(s, a + 1, e);
        Some(Decimal(whole * Pow10(e - a - 1) + DigitsValue(s[a + 1..e]), e - a - 1))
  }

  /** 10^15: decimals with at most 15 significant digits keep their order when rounded to doubles. */
  const MaxSignificand: nat := 1_000_000_000_000_000

  predicate StartsExponent(r: string) {
    r != [] && (r[0] == 'e' || r[0] == 'E')
  }

  /**
   * The tags on which `LeadingDecimal` compares against a floor exactly as
   * `parseFloat(tag) >= floor` does in IEEE-754 doubles: no leading
   * whitespace, sign, dot or "Infinity"; no exponent after the numeric
   * prefix; at most 15 significant digits, so that rounding to the nearest
   * double keeps the order with 1.7 and 1.9.
   */
  predicate InParseDomain(s: string) {
    && (s == [] || ('!' <= s[0] <= '~' && s[0] !in "+-.I"))
    && (var e := NumericPrefixEnd(s);
        && !(e > 0 && StartsExponent(s[e..]))
        && !(e > 0 && e == DigitRun(s, 0) && e < |s| && s[e] == '.' && StartsExponent(s[e + 1..])))
    && (LeadingDecimal(s).Some? ==> LeadingDecimal(s).value.mantissa < MaxSignificand)
  }

  /** Every tag, once its first 'v' is removed, is in the domain of the model. */
  predicate TagsInDomain(tags: seq<string>) {
    forall t :: t in tags ==> InParseDomain(StripFirstV(t))
  }

  /** `parseFloat(s) >= floor`; NaN is never kept. */
  predicate Kept(s: string, floor: Decimal) {
    LeadingDecimal(s).Some? && AtLeast(LeadingDecimal(s).value, floor)
  }

  /** `tags.map(t => t.replace('v', ''))` */
  function Normalise(tags: seq<string>): (r: seq<string>)
    ensures |r| == |tags|
    ensures forall i :: 0 <= i < |tags| ==> r[i] == StripFirstV(tags[i])
  {
    if tags == [] then [] else [StripFirstV(tags[0])] + Normalise(tags[1..])
  }

  /** `vs.filter(v => parseFloat(v) >= floor)` */
  function KeepAtLeast(vs: seq<string>, floor: Decimal): (r: seq<string>)
    ensures |r| <= |vs|
    ensures forall k :: 0 <= k < |r| ==> Kept(r[k], floor)
  {
    if vs == [] then []
    else (if Kept(vs[0], floor) then [vs[0]] else []) + KeepAtLeast(vs[1..], floor)
  }

  /** The filter keeps every occurrence of a passing version and none of a failing one. */
  lemma {:induction false} KeepAtLeastCounts(vs: seq<string>, floor: Decimal)
    ensures forall x :: multiset(KeepAtLeast(vs, floor))[x] == if Kept(x, floor) then multiset(vs)[x] else 0
    decreases |vs|
  {
    if vs != [] {
      KeepAtLeastCounts(vs[1..], floor);
      assert vs == [vs[0]] + vs[1..];
    }
  }

  /** `Array.prototype.reverse` */
  function Reverse<T>(s: seq<T>): (r: seq<T>)
    ensures |r| == |s|
    ensures forall k :: 0 <= k < |s| ==> r[k] == s[|s| - 1 - k]
  {
    if s == [] then [] else Reverse(s[1..]) + [s[0]]
  }

  /** Reversing moves elements and loses none. */
  lemma {:induction false} ReversePermutes<T>(s: seq<T>)
    ensures multiset(Reverse(s)) == multiset(s)
    decreases |s|
  {
    if s != [] {
      ReversePermutes(s[1..]);
      assert s == [s[0]] + s[1..];
    }
  }

  /** `a` is `b` with some elements left out, the rest in their order. */
  predicate IsSubsequence<T(==)>(a: seq<T>, b: seq<T>)
    decreases |b|
  {
    a == [] || (b != [] && (IsSubsequence(a, b[1..]) || (a[0] == b[0] && IsSubsequence(a[1..], b[1..]))))
  }

  /**
   * The version array of one product line: normalised tags whose leading
   * decimal value is at least `floor`, last tag first.
   */
  function VersionList(tags: seq<string>, floor: Decimal): (r: seq<string>)
    requires TagsInDomain(tags)
    ensures |r| <= |tags|
    ensures forall k :: 0 <= k < |r| ==> Kept(r[k], floor)
  {
    Reverse(KeepAtLeast(Normalise(tags), floor))
  }

  /** A version occurs in the array as often as among the normalised tags when it passes the floor, and never otherwise. */
  lemma VersionListCounts(tags: seq<string>, floor: Decimal)
    requires TagsInDomain(tags)
    ensures forall x :: multiset(VersionList(tags, floor))[x] == if Kept(x, floor) then multiset(Normalise(tags))[x] else 0
  {
    ReversePermutes(KeepAtLeast(Normalise(tags), floor));
    KeepAtLeastCounts(Normalise(tags), floor);
  }

  /** A version is in the array exactly when some tag normalises to it and it passes the floor. */
  lemma VersionListMembers(tags: seq<string>, floor: Decimal)
    requires TagsInDomain(tags)
    ensures forall x :: x in VersionList(tags, floor) <==> Kept(x, floor) && exists i :: 0 <= i < |tags| && StripFirstV(tags[i]) == x
  {
    var n := Normalise(tags);
    var r := VersionList(tags, floor);
    VersionListCounts(tags, floor);
    forall x ensures x in r <==> Kept(x, floor) && exists i :: 0 <= i < |tags| && StripFirstV(tags[i]) == x {
      assert x in r <==> multiset(r)[x] > 0;
      assert x in n <==> multiset(n)[x] > 0;
      if x in n {
        var i :| 0 <= i < |n| && n[i] == x;
        assert StripFirstV(tags[i]) == x;
      }
    }
  }

  lemma {:induction false} ReverseReverse<T>(s: seq<T>)
    ensures Reverse(Reverse(s)) == s
  {
    var r := Reverse(s);
    assert forall k :: 0 <= k < |s| ==> Reverse(r)[k] == r[|s| - 1 - k] == s[k];
  }

  lemma {:induction false} KeepAtLeastIsSubsequence(vs: seq<string>, floor: Decimal)
    ensures IsSubsequence(KeepAtLeast(vs, floor), vs)
    decreases |vs|
  {
    if vs != [] {
      KeepAtLeastIsSubsequence(vs[1..], floor);
      var r := KeepAtLeast(vs, floor);
      if Kept(vs[0], floor) {
        assert r[0] == vs[0] && r[1..] == KeepAtLeast(vs[1..], floor);
      } else {
        assert r == KeepAtLeast(vs[1..], floor);
      }
    }
  }

  /** Read back to front, the version array keeps the order of the product tags it comes from. */
  lemma VersionListOrder(tags: seq<string>, floor: Decimal)
    requires TagsInDomain(tags)
    ensures IsSubsequence(Reverse(VersionList(tags, floor)), Normalise(tags))
  {
    ReverseReverse(KeepAtLeast(Normalise(tags), floor));
    KeepAtLeastIsSubsequence(Normalise(tags), floor);
  }

  /** In `a.b…`, the digit runs at 0 and after the dot are `a` and `b`. */
  lemma FractionRuns(s: string, a: string, b: string, rest: string)
    requires s == a + "." + b + rest
    requires AllDigits(a) && AllDigits(b)
    requires rest == [] || !IsDigit(rest[0])
    ensures |a| < |s| && s[|a|] == '.'
    ensures DigitRun(s, 0) == |a| && s[0..|a|] == a
    ensures DigitRun(s, |a| + 1) == |b| && s[|a| + 1..|a| + 1 + |b|] == b
    ensures b != [] ==> IsDigit(s[|a| + 1])
  {
    var m := |a| + 1;
    forall k | 0 <= k < |a| ensures s[k] == a[k] && IsDigit(s[k]) { }
    forall k | m <= k < m + |b| ensures s[k] == b[k - m] && IsDigit(s[k]) { }
    assert m + |b| == |s| || s[m + |b|] == rest[0];
    DigitRunUnique(s, 0, |a|);
    DigitRunUnique(s, m, |b|);
  }

  /** A string `a.b…` with digit runs `a` and `b` reads as the decimal `a + b / 10^|b|`. */
  lemma LeadingDecimalOfFraction(s: string, a: string, b: string, rest: string)
    requires s == a + "." + b + rest
    requires a != [] && b != [] && AllDigits(a) && AllDigits(b)
    requires rest == [] || !IsDigit(rest[0])
    ensures NumericPrefixEnd(s) == |a| + 1 + |b|
    ensures LeadingDecimal(s) == Some(Decimal(DigitsValue(a) * Pow10(|b|) + DigitsValue(b), |b|))
  {
    FractionRuns(s, a, b, rest);
    FractionValue(s, a, b);
  }

  lemma FractionValue(s: string, a: string, b: string)
    requires a != [] && b != [] && AllDigits(a) && AllDigits(b)
    requires |a| < |s| && s[|a|] == '.'
    requires DigitRun(s, 0) == |a| && s[0..|a|] == a
    requires DigitRun(s, |a| + 1) == |b| && s[|a| + 1..|a| + 1 + |b|] == b
    requires IsDigit(s[|a| + 1])
    ensures NumericPrefixEnd(s) == |a| + 1 + |b|
    ensures LeadingDecimal(s) == Some(Decimal(DigitsValue(a) * Pow10(|b|) + DigitsValue(b), |b|))
  {
    var e := NumericPrefixEnd(s);
    assert e == |a| + 1 + |b|;
    assert s[|a| + 1..e] == b;
  }

  /** A string that starts with the digit run `a`, not followed by a dot and a digit, reads as the integer `a`. */
  lemma LeadingDecimalOfInteger(s: string, a: string, rest: string)
    requires s == a + rest
    requires a != [] && AllDigits(a)
    requires rest == [] || (!IsDigit(rest[0]) && !(|rest| > 1 && rest[0] == '.' && IsDigit(rest[1])))
    ensures NumericPrefixEnd(s) == |a|
    ensures LeadingDecimal(s) == Some(Decimal(DigitsValue(a), 0))
  {
    forall k | 0 <= k < |a| ensures s[k] == a[k] && IsDigit(s[k]) { }
    assert |a| == |s| || s[|a|] == rest[0];
    DigitRunUnique(s, 0, |a|);
    assert s[0..|a|] == a;
  }

  /** A tag of the shape `d.d` reads as `dd / 10` and lies in the domain of the model. */
  lemma OneDigitMinor(s: string)
    requires |s| == 3 && IsDigit(s[0]) && s[1] == '.' && IsDigit(s[2])
    ensures InParseDomain(s)
    ensures LeadingDecimal(s) == Some(Decimal(10 * (s[0] as int - '0' as int) + (s[2] as int - '0' as int), 1))
  {
    var a, b := s[..1], s[2..];
    assert s == a + "." + b + "";
    LeadingDecimalOfFraction(s, a, b, "");
    assert a[..0] == [] && b[..0] == [];
    assert DigitsValue(a) == s[0] as int - '0' as int;
    assert DigitsValue(b) == s[2] as int - '0' as int;
    assert Pow10(1) == 10;
  }

  /** Against a floor with one decimal place, a tag `d.d` is kept when its tenths reach the floor's. */
  lemma OneDigitMinorKept(s: string, floor: Decimal)
    requires |s| == 3 && IsDigit(s[0]) && s[1] == '.' && IsDigit(s[2])
    requires floor.scale == 1
    ensures Kept(s, floor) <==> 10 * (s[0] as int - '0' as int) + (s[2] as int - '0' as int) >= floor.mantissa
  {
    OneDigitMinor(s);
    assert Pow10(1) == 10;
  }

  lemma KeepAtLeastCons(v: string, vs: seq<string>, floor: Decimal)
    ensures KeepAtLeast([v] + vs, floor) == (if Kept(v, floor) then [v] else []) + KeepAtLeast(vs, floor)
  {
    assert ([v] + vs)[1..] == vs;
  }

  lemma ReverseOfThree<T>(a: T, b: T, c: T)
    ensures Reverse([a, b, c]) == [c, b, a]
  {
    var s := [a, b, c];
    var r := Reverse(s);
    assert r[0] == s[2] && r[1] == s[1] && r[2] == s[0];
  }

  /** "1.10" reads as 1.10, which is the number 1.1. */
  lemma TenthsValue()
    ensures NumericPrefixEnd("1.10") == 4
    ensures LeadingDecimal("1.10") == Some(Decimal(110, 2))
    ensures SameValue(Decimal(110, 2), Decimal(11, 1))
  {
    assert "1.10" == "1" + "." + "10" + "";
    LeadingDecimalOfFraction("1.10", "1", "10", "");
    assert "1"[..0] == [] && "10"[..1] == "1";
    assert DigitsValue("1") == 1 && DigitsValue("10") == 10;
    assert Pow10(2) == 100;
  }

  /** "1.10" passes neither floor, while "1.9" passes the Enterprise one. */
  lemma TenthsReadAsOne()
    ensures !Kept("1.10", EnterpriseFloor) && !Kept("1.10", OssFloor)
    ensures Kept("1.9", EnterpriseFloor)
  {
    TenthsValue();
    assert Pow10(1) == 10 && Pow10(2) == 100;
    OneDigitMinorKept("1.9", EnterpriseFloor);
  }

  /** A tag `vd.d` loses its leading 'v' and lands in the domain of the model. */
  lemma VTaggedOneDigitMinor(t: string)
    requires |t| == 4 && t[0] == 'v' && IsDigit(t[1]) && t[2] == '.' && IsDigit(t[3])
    ensures StripFirstV(t) == [t[1], t[2], t[3]] && InParseDomain(StripFirstV(t))
  {
    assert t[1..] == [t[1], t[2], t[3]];
    OneDigitMinor(t[1..]);
  }

  lemma NormaliseOfFour(a: string, b: string, c: string, d: string)
    ensures Normalise([a, b, c, d]) == [StripFirstV(a), StripFirstV(b), StripFirstV(c), StripFirstV(d)]
  {
    var n := Normalise([a, b, c, d]);
    assert n[0] == StripFirstV(a) && n[1] == StripFirstV(b) && n[2] == StripFirstV(c) && n[3] == StripFirstV(d);
  }

  /** A tag of four characters that starts with 'v' loses exactly that 'v'. */
  lemma StripLeadingV(t: string)
    requires |t| == 4 && t[0] == 'v'
    ensures StripFirstV(t) == [t[1], t[2], t[3]]
  {
  }

  lemma OssExampleNormalised()
    ensures Normalise(["v1.6", "v1.7", "v1.8", "v2.0"]) == ["1.6", "1.7", "1.8", "2.0"]
  {
    NormaliseOfFour("v1.6", "v1.7", "v1.8", "v2.0");
    StripLeadingV("v1.6");
    StripLeadingV("v1.7");
    StripLeadingV("v1.8");
    StripLeadingV("v2.0");
  }

  lemma InDomainOfFour(a: string, b: string, c: string, d: string)
    requires |a| == 4 && a[0] == 'v' && IsDigit(a[1]) && a[2] == '.' && IsDigit(a[3])
    requires |b| == 4 && b[0] == 'v' && IsDigit(b[1]) && b[2] == '.' && IsDigit(b[3])
    requires |c| == 4 && c[0] == 'v' && IsDigit(c[1]) && c[2] == '.' && IsDigit(c[3])
    requires |d| == 4 && d[0] == 'v' && IsDigit(d[1]) && d[2] == '.' && IsDigit(d[3])
    ensures TagsInDomain([a, b, c, d])
  {
    VTaggedOneDigitMinor(a);
    VTaggedOneDigitMinor(b);
    VTaggedOneDigitMinor(c);
    VTaggedOneDigitMinor(d);
  }

  lemma OssExampleInDomain()
    ensures TagsInDomain(["v1.6", "v1.7", "v1.8", "v2.0"])
  {
    InDomainOfFour("v1.6", "v1.7", "v1.8", "v2.0");
  }

  lemma OssExampleFiltered()
    ensures KeepAtLeast(["1.6", "1.7", "1.8", "2.0"], OssFloor) == ["1.7", "1.8", "2.0"]
  {
    OneDigitMinorKept("1.6", OssFloor);
    OneDigitMinorKept("1.7", OssFloor);
    OneDigitMinorKept("1.8", OssFloor);
    OneDigitMinorKept("2.0", OssFloor);
    KeepAtLeastCons("2.0", [], OssFloor);
    KeepAtLeastCons("1.8", ["2.0"], OssFloor);
    KeepAtLeastCons("1.7", ["1.8", "2.0"], OssFloor);
    KeepAtLeastCons("1.6", ["1.7", "1.8", "2.0"], OssFloor);
  }

  /** Floor 1.7 keeps 1.7, 1.8 and 2.0 of four OSS tags, last one first. */
  lemma OssExample()
    ensures TagsInDomain(["v1.6", "v1.7", "v1.8", "v2.0"])
    ensures VersionList(["v1.6", "v1.7", "v1.8", "v2.0"], OssFloor) == ["2.0", "1.8", "1.7"]
  {
    OssExampleInDomain();
    OssExampleNormalised();
    OssExampleFiltered();
    ReverseOfThree("1.7", "1.8", "2.0");
  }

  /** Floor 1.9 drops "1.10", which reads as 1.1. */
  lemma EnterpriseExample()
    ensures TagsInDomain(["v1.9", "v1.10"])
    ensures VersionList(["v1.9", "v1.10"], EnterpriseFloor) == ["1.9"]
  {
    var tags := ["v1.9", "v1.10"];
    assert StripFirstV("v1.9") == "1.9" && StripFirstV("v1.10") == "1.10";
    OneDigitMinor("1.9");
    TenthsValue();
    TenthsReadAsOne();
    assert InParseDomain("1.10");
    var n := Normalise(tags);
    assert n == ["1.9", "1.10"];
    OneDigitMinorKept("1.9", EnterpriseFloor);
    KeepAtLeastCons("1.10", [], EnterpriseFloor);
    KeepAtLeastCons("1.9", ["1.10"], EnterpriseFloor);
    assert Reverse(["1.9"])[0] == "1.9";
  }
}
