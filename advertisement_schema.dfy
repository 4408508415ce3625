/** The price rule of the advertisement form's schema
    (src/screens/CreateAdvertisement.tsx, `advertisementSchema`): the text
    must match the regular expression

        ^\s*(?:[1-9]\d{0,2}(?:\.|\d{3})*|0)(?:,\d{0,2})?$

    The expression is first read literally as a grammar (the reference),
    then recognised by a left-to-right scan, and the two are proved to agree. */
module AdvertisementSchema {
  import opened Strings
  import PriceFormat

  /** `\s` of ECMAScript regular expressions: white space and line terminators. */
  predicate IsRegexSpace(c: char)
  {
    var n := c as int;
    n == 0x09 || n == 0x0A || n == 0x0B || n == 0x0C || n == 0x0D || n == 0x20 ||
    n == 0xA0 || n == 0x1680 || (0x2000 <= n <= 0x200A) || n == 0x2028 || n == 0x2029 ||
    n == 0x202F || n == 0x205F || n == 0x3000 || n == 0xFEFF
  }

  predicate AllSpace(s: string) { forall i :: 0 <= i < |s| ==> IsRegexSpace(s[i]) }

  predicate IsNonZeroDigit(c: char) { '1' <= c <= '9' }

  // ----- The regular expression, read as a grammar -----

  /** `(?:\.|\d{3})*` */
  predicate DotsAndTriples(v: string)
    decreases |v|
  {
    || v == []
    || (v[0] == '.' && DotsAndTriples(v[1..]))
    || (|v| >= 3 && AllDigits(v[..3]) && DotsAndTriples(v[3..]))
  }

  /** `\d{0,2}(?:\.|\d{3})*` */
  ghost predicate LeadingDigitsThenGroups(u: string)
  {
    exists k :: 0 <= k <= 2 && k <= |u| && AllDigits(u[..k]) && DotsAndTriples(u[k..])
  }

  /** `[1-9]\d{0,2}(?:\.|\d{3})*|0` */
  ghost predicate IntegerPart(t: string)
  {
    t == "0" || (|t| >= 1 && IsNonZeroDigit(t[0]) && LeadingDigitsThenGroups(t[1..]))
  }

  /** `(?:,\d{0,2})?` */
  predicate FractionPart(f: string)
  {
    f == [] || (f[0] == ',' && |f| <= 3 && AllDigits(f[1..]))
  }

  /** `s` splits into `\s*`, the integer part and the fraction part at `i` and `j`. */
  ghost predicate SplitsAt(s: string, i: int, j: int)
  {
    0 <= i <= j <= |s| && AllSpace(s[..i]) && IntegerPart(s[i..j]) && FractionPart(s[j..])
  }

  /** The whole string matches the pattern (it is anchored at both ends). */
  ghost predicate MatchesPricePattern(s: string)
  {
    exists i, j :: SplitsAt(s, i, j)
  }

  /** The integer part is mandatory, so every match holds a digit right
      after its leading blanks. */
  lemma MatchHoldsDigit(s: string)
    requires MatchesPricePattern(s)
    ensures exists k :: 0 <= k < |s| && AllSpace(s[..k]) && IsDigit(s[k])
  {
  }

  // ----- The recogniser -----

  function LeadingSpaceCount(s: string): (n: nat)
    ensures n <= |s| && AllSpace(s[..n]) && (n == |s| || !IsRegexSpace(s[n]))
    decreases |s|
  {
    if s == [] || !IsRegexSpace(s[0]) then 0
    else
      var n := 1 + LeadingSpaceCount(s[1..]);
      assert s[..n] == [s[0]] + s[1..][..n - 1];
      n
  }

  function CommaIndex(s: string): (n: nat)
    ensures n <= |s| && (forall k :: 0 <= k < n ==> s[k] != ',') && (n < |s| ==> s[n] == ',')
    decreases |s|
  {
    if s == [] || s[0] == ',' then 0 else 1 + CommaIndex(s[1..])
  }

  /** After a '.', digits must come in complete triples; `pending` is the
      number of digits of the current triple already read. */
  function ScanTriples(v: string, pending: nat): bool
    requires pending < 3
    decreases |v|
  {
    if v == [] then pending == 0
    else if v[0] == '.' then pending == 0 && ScanTriples(v[1..], 0)
    else if IsDigit(v[0]) then ScanTriples(v[1..], (pending + 1) % 3)
    else false
  }

  /** Before the first '.', any number of digits. */
  function ScanLeadingDigits(u: string): bool
    decreases |u|
  {
    if u == [] then true
    else if IsDigit(u[0]) then ScanLeadingDigits(u[1..])
    else if u[0] == '.' then ScanTriples(u[1..], 0)
    else false
  }

  function IsIntegerText(t: string): bool
  {
    t == "0" || (|t| >= 1 && IsNonZeroDigit(t[0]) && ScanLeadingDigits(t[1..]))
  }

  /** The test the form applies to the price text. */
  function IsPriceText(s: string): (ok: bool)
    ensures ok <==> MatchesPricePattern(s)
  {
    var i := LeadingSpaceCount(s);
    var j := i + CommaIndex(s[i..]);
    PriceTextAgrees(s, i, j);
    IsIntegerText(s[i..j]) && FractionPart(s[j..])
  }

  // ----- Agreement of the recogniser with the grammar -----

  /** `v` preceded by `pending` digits. */
  function Padded(v: string, pending: nat): string
    requires pending < 3
  {
    if pending == 0 then v else if pending == 1 then "0" + v else "00" + v
  }

  /** One step of `(?:\.|\d{3})*`, by the first character. */
  lemma DotsAndTriplesStep(v: string)
    requires v != []
    ensures v[0] == '.' ==> (DotsAndTriples(v) <==> DotsAndTriples(v[1..]))
    ensures IsDigit(v[0]) ==>
      (DotsAndTriples(v) <==> |v| >= 3 && IsDigit(v[1]) && IsDigit(v[2]) && DotsAndTriples(v[3..]))
    ensures v[0] != '.' && !IsDigit(v[0]) ==> !DotsAndTriples(v)
  {
    if |v| >= 3 {
      assert v[..3][0] == v[0] && v[..3][1] == v[1] && v[..3][2] == v[2];
    }
  }

  /** Scanning with `pending` digits already read is parsing `(?:\.|\d{3})*`
      after that many digits. */
  lemma {:induction false} ScanTriplesMeaning(v: string, pending: nat)
    requires pending < 3
    ensures ScanTriples(v, pending) <==> DotsAndTriples(Padded(v, pending))
    decreases |v|
  {
    var w := Padded(v, pending);
    if v == [] {
      if pending > 0 {
        DotsAndTriplesStep(w);
      }
    } else if v[0] == '.' {
      ScanTriplesMeaning(v[1..], 0);
      DotsAndTriplesStep(w);
      if pending > 0 {
        assert w[pending] == '.';
      }
    } else if IsDigit(v[0]) {
      var next := (pending + 1) % 3;
      ScanTriplesMeaning(v[1..], next);
      var w' := Padded(v[1..], next);
      DotsAndTriplesStep(w);
      if w' != [] {
        DotsAndTriplesStep(w');
      }
      if pending == 0 {
        assert w == v && w' == "0" + v[1..];
        if |w| >= 3 {
          assert w'[1] == w[1] && w'[2] == w[2] && w'[3..] == w[3..];
        }
      } else if pending == 1 {
        assert w == "0" + v && w' == "00" + v[1..];
        if |w| >= 3 {
          assert w'[2] == w[2] && w'[3..] == w[3..];
        }
      } else {
        assert w == "00" + v && w' == v[1..];
        assert w[2] == v[0] && w[3..] == v[1..];
      }
    } else {
      DotsAndTriplesStep(w);
      if pending > 0 {
        assert w[pending] == v[0];
      }
    }
  }

  /** Scanning the digits before the first '.' is scanning triples from any phase. */
  lemma {:induction false} ScanLeadingDigitsPhases(u: string)
    ensures ScanLeadingDigits(u) <==>
      ScanTriples(u, 0) || ScanTriples(u, 1) || ScanTriples(u, 2)
    decreases |u|
  {
    if u != [] && IsDigit(u[0]) {
      ScanLeadingDigitsPhases(u[1..]);
    }
  }

  /** `\d{0,2}` followed by groups is groups after no, two or one extra digits. */
  lemma LeadingDigitsAsPadding(u: string)
    ensures LeadingDigitsThenGroups(u) <==>
      DotsAndTriples(u) || DotsAndTriples(Padded(u, 2)) || DotsAndTriples(Padded(u, 1))
  {
    var two, one := Padded(u, 2), Padded(u, 1);
    DotsAndTriplesStep(two);
    DotsAndTriplesStep(one);
    assert two[2..] == u && one[1..] == u;
    if DotsAndTriples(u) {
      assert u[..0] == [] && u[0..] == u;
    }
    if DotsAndTriples(two) {
      assert AllDigits(u[..1]) && DotsAndTriples(u[1..]);
    }
    if DotsAndTriples(one) {
      assert u[..2][0] == u[0] && u[..2][1] == u[1];
      assert AllDigits(u[..2]) && DotsAndTriples(u[2..]);
    }
    if LeadingDigitsThenGroups(u) {
      var k :| 0 <= k <= 2 && k <= |u| && AllDigits(u[..k]) && DotsAndTriples(u[k..]);
      if k == 0 {
        assert u[k..] == u;
      } else if k == 1 {
        assert u[..k][0] == u[0];
        assert two[3..] == u[1..];
      } else {
        assert u[..k][0] == u[0] && u[..k][1] == u[1];
        assert one[3..] == u[2..];
      }
    }
  }

  lemma IntegerTextAgrees(t: string)
    ensures IsIntegerText(t) <==> IntegerPart(t)
  {
    if |t| >= 1 {
      var u := t[1..];
      ScanLeadingDigitsPhases(u);
      ScanTriplesMeaning(u, 0);
      ScanTriplesMeaning(u, 1);
      ScanTriplesMeaning(u, 2);
      LeadingDigitsAsPadding(u);
    }
  }

  /** Groups hold only digits and dots. */
  lemma {:induction false} DotsAndTriplesChars(v: string)
    requires DotsAndTriples(v)
    ensures forall k :: 0 <= k < |v| ==> IsDigit(v[k]) || v[k] == '.'
    decreases |v|
  {
    if v != [] {
      if v[0] == '.' && DotsAndTriples(v[1..]) {
        DotsAndTriplesChars(v[1..]);
        assert forall k :: 1 <= k < |v| ==> v[k] == v[1..][k - 1];
      } else {
        DotsAndTriplesChars(v[3..]);
        assert forall k :: 3 <= k < |v| ==> v[k] == v[3..][k - 3];
        assert forall k :: 0 <= k < 3 ==> v[k] == v[..3][k];
      }
    }
  }

  /** The integer part starts with a digit and holds no ','. */
  lemma IntegerPartChars(t: string)
    requires IntegerPart(t)
    ensures |t| >= 1 && IsDigit(t[0])
    ensures forall k :: 0 <= k < |t| ==> t[k] != ','
  {
    if t != "0" {
      var u := t[1..];
      var k :| 0 <= k <= 2 && k <= |u| && AllDigits(u[..k]) && DotsAndTriples(u[k..]);
      DotsAndTriplesChars(u[k..]);
      forall m | 1 <= m < |t| ensures t[m] != ',' {
        if m - 1 < k {
          assert t[m] == u[..k][m - 1];
        } else {
          assert t[m] == u[k..][m - 1 - k];
        }
      }
    }
  }

  /** Leading blanks followed by a non-blank end where the scan stops. */
  lemma BlanksEndAt(s: string, i: nat)
    requires i < |s| && AllSpace(s[..i]) && !IsRegexSpace(s[i])
    ensures LeadingSpaceCount(s) == i
  {
  }

  /** A comma-free stretch followed by the end or a ',' ends where the scan stops. */
  lemma CommaFoundAt(r: string, c: nat)
    requires c <= |r| && (forall k :: 0 <= k < c ==> r[k] != ',') && (c < |r| ==> r[c] == ',')
    ensures CommaIndex(r) == c
  {
  }

  /** The grammar allows only the split the recogniser makes. */
  lemma SplitIsUnique(s: string, i: int, j: int)
    requires SplitsAt(s, i, j)
    ensures i == LeadingSpaceCount(s) && j == i + CommaIndex(s[i..])
  {
    var t := s[i..j];
    IntegerPartChars(t);
    assert s[i] == t[0];
    BlanksEndAt(s, i);
    var r := s[i..];
    forall k | 0 <= k < j - i ensures r[k] != ',' {
      assert r[k] == t[k];
    }
    if j < |s| {
      assert r[j - i] == s[j..][0];
    }
    CommaFoundAt(r, j - i);
  }

  /** What the recogniser accepts, the grammar derives. */
  lemma PriceTextSound(s: string, i: nat, j: nat)
    requires i == LeadingSpaceCount(s) && j == i + CommaIndex(s[i..])
    requires IsIntegerText(s[i..j]) && FractionPart(s[j..])
    ensures MatchesPricePattern(s)
  {
    var t := s[i..j];
    IntegerTextAgrees(t);
    assert IntegerPart(t) && AllSpace(s[..i]);
    assert SplitsAt(s, i, j);
  }

  /** What the grammar derives, the recogniser accepts. */
  lemma PriceTextComplete(s: string, i: nat, j: nat)
    requires i == LeadingSpaceCount(s) && j == i + CommaIndex(s[i..])
    requires MatchesPricePattern(s)
    ensures IsIntegerText(s[i..j]) && FractionPart(s[j..])
  {
    var i', j' :| SplitsAt(s, i', j');
    SplitIsUnique(s, i', j');
    IntegerTextAgrees(s[i..j]);
  }

  /** The recogniser accepts exactly the strings the grammar derives. */
  lemma PriceTextAgrees(s: string, i: nat, j: nat)
    requires i == LeadingSpaceCount(s) && j == i + CommaIndex(s[i..])
    ensures (IsIntegerText(s[i..j]) && FractionPart(s[j..])) <==> MatchesPricePattern(s)
  {
    if IsIntegerText(s[i..j]) && FractionPart(s[j..]) {
      PriceTextSound(s, i, j);
    }
    if MatchesPricePattern(s) {
      PriceTextComplete(s, i, j);
    }
  }

  // ----- Consequences -----

  /** Every digit string is `\d{0,2}` followed by triples. */
  lemma {:induction false} DigitsAreTriples(v: string)
    requires AllDigits(v) && |v| % 3 == 0
    ensures DotsAndTriples(v)
    decreases |v|
  {
    if v != [] {
      DigitsAreTriples(v[3..]);
    }
  }

  lemma DigitsAreLeadingDigitsThenGroups(u: string)
    requires AllDigits(u)
    ensures LeadingDigitsThenGroups(u)
  {
    var k := |u| % 3;
    DigitsAreTriples(u[k..]);
    assert AllDigits(u[..k]);
  }

  /** A digit string that is "0" or starts with a non-zero digit is an
      integer part. */
  lemma DigitsAreIntegerPart(t: string)
    requires |t| >= 1 && AllDigits(t) && (t == "0" || IsNonZeroDigit(t[0]))
    ensures IntegerPart(t)
  {
    if t != "0" {
      DigitsAreLeadingDigitsThenGroups(t[1..]);
    }
  }

  /** The digits before the comma of a formatted price form an integer part. */
  lemma FormattedIntegerPart(price: nat)
    ensures var r := PriceFormat.FormatPriceValue(price);
      IntegerPart(r[..|r| - 3])
  {
    var r := PriceFormat.FormatPriceValue(price);
    var t := r[..|r| - 3];
    PriceFormat.FormatPriceDigits(price);
    if price < 100 {
      PriceFormat.FormatPriceUnits(price);
    } else {
      PriceFormat.FormatLargePrice(price);
      assert t[0] == r[0];
    }
    DigitsAreIntegerPart(t);
  }

  /** An integer part, ',' and two digits match the pattern. */
  lemma IntegerPartCommaCents(r: string)
    requires |r| >= 4 && r[|r| - 3] == ','
    requires IntegerPart(r[..|r| - 3]) && AllDigits(r[|r| - 2..])
    ensures MatchesPricePattern(r)
  {
    var j := |r| - 3;
    var fraction := r[j..];
    assert fraction[1..] == r[|r| - 2..];
    assert FractionPart(fraction);
    assert r[..0] == [] && r[0..j] == r[..j];
    assert SplitsAt(r, 0, j);
  }

  /** The text the edit form is prefilled with for a stored price matches
      the pattern ... */
  lemma FormattedPriceMatches(price: nat)
    ensures MatchesPricePattern(PriceFormat.FormatPriceValue(price))
  {
    FormattedIntegerPart(price);
    PriceFormat.FormatPriceDigits(price);
    IntegerPartCommaCents(PriceFormat.FormatPriceValue(price));
  }

  /** ... and so the form's test accepts it. */
  lemma FormattedPriceAccepted(price: nat)
    ensures IsPriceText(PriceFormat.FormatPriceValue(price))
  {
    FormattedPriceMatches(price);
  }

  // ----- Behaviour on typical inputs -----

  lemma AcceptsZero()
    ensures MatchesPricePattern("0")
  {
    var s := "0";
    assert s[..0] == [] && s[0..1] == "0" && s[1..] == [];
    assert SplitsAt(s, 0, 1);
  }

  lemma AcceptsPlainInteger()
    ensures MatchesPricePattern("12")
  {
    var s := "12";
    assert s[..0] == [] && s[0..2] == s && s[2..] == [];
    assert s[1..] == "2" && "2"[..1] == "2" && "2"[1..] == [];
    assert LeadingDigitsThenGroups("2");
    assert SplitsAt(s, 0, 2);
  }

  lemma AcceptsOneDecimal()
    ensures MatchesPricePattern("0,5")
  {
    var s := "0,5";
    assert s[..0] == [] && s[0..1] == "0" && s[1..] == ",5" && ",5"[1..] == "5";
    assert SplitsAt(s, 0, 1);
  }

  lemma AcceptsUngroupedThousands()
    ensures MatchesPricePattern("1234,5")
  {
    var s := "1234,5";
    var t := "1234";
    assert s[..0] == [] && s[0..4] == t && s[4..] == ",5" && ",5"[1..] == "5";
    assert t[1..] == "234" && "234"[..0] == [] && "234"[0..] == "234";
    assert "234"[..3] == "234" && "234"[3..] == [];
    assert DotsAndTriples("234");
    assert LeadingDigitsThenGroups("234");
    assert SplitsAt(s, 0, 4);
  }

  lemma AcceptsGroupedThousands()
    ensures MatchesPricePattern("1.234,56")
  {
    var s := "1.234,56";
    var t := "1.234";
    assert s[..0] == [] && s[0..5] == t && s[5..] == ",56" && ",56"[1..] == "56";
    assert t[1..] == ".234" && ".234"[..0] == [] && ".234"[0..] == ".234" && ".234"[1..] == "234";
    assert "234"[..3] == "234" && "234"[3..] == [];
    assert DotsAndTriples("234");
    assert DotsAndTriples(".234");
    assert LeadingDigitsThenGroups(".234");
    assert SplitsAt(s, 0, 5);
  }

  lemma AcceptsLeadingBlanks()
    ensures MatchesPricePattern("  12")
  {
    var s := "  12";
    assert s[..2] == "  " && s[2..4] == "12" && s[4..] == [];
    assert "12"[1..] == "2" && "2"[..1] == "2" && "2"[1..] == [];
    assert LeadingDigitsThenGroups("2");
    assert SplitsAt(s, 2, 4);
  }

  /** Dots are not checked for position: "1." passes. */
  lemma AcceptsBareDot()
    ensures MatchesPricePattern("1.")
  {
    var s := "1.";
    assert s[..0] == [] && s[0..2] == s && s[2..] == [];
    assert s[1..] == "." && "."[..0] == [] && "."[0..] == "." && "."[1..] == [];
    assert DotsAndTriples(".");
    assert LeadingDigitsThenGroups(".");
    assert SplitsAt(s, 0, 2);
  }

  lemma RejectsLeadingZero()
    ensures !MatchesPricePattern("01")
  {
    var s := "01";
    assert s[1..] == "1" && "1"[1..] == [];
    assert CommaIndex(s) == 2;
    assert s[0..2] == s;
    assert !IsPriceText(s);
  }

  lemma RejectsThreeDecimals()
    ensures !MatchesPricePattern("1,234")
  {
    var s := "1,234";
    assert s[1..] == ",234" && CommaIndex(s) == 1;
    assert s[1..] == ",234" && |s[1..]| == 4;
    assert !FractionPart(s[1..]);
    assert !IsPriceText(s);
  }

  lemma RejectsEmpty()
    ensures !MatchesPricePattern("")
  {
    assert !IsPriceText("");
  }

  lemma RejectsTrailingBlank()
    ensures !MatchesPricePattern("12 ")
  {
    var s := "12 ";
    assert s[1..] == "2 " && "2 "[1..] == " " && " "[1..] == [];
    assert CommaIndex(s) == 3;
    assert s[0..3] == s && s[3..] == [];
    assert s[1..] == "2 " && !ScanLeadingDigits(" ");
    assert !ScanLeadingDigits("2 ");
    assert !IsPriceText(s);
  }
}
