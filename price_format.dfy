/** Display of a price held in cents (src/utils/formatPriceValue.ts). The
    locale rendering is taken to be the plain, ungrouped digit string. */
module PriceFormat {
  import opened Strings

  /** `digits.slice(0, -2) + ',' + digits.slice(-2)`: ',' inserted before
      the last two characters of a digit string. */
  function InsertComma(digits: string): (r: string)
    requires |digits| >= 3 && AllDigits(digits)
    ensures |r| >= 4 && r[|r| - 3] == ','
    ensures r[..|r| - 3] == digits[..|digits| - 2] && r[|r| - 2..] == digits[|digits| - 2..]
    ensures AllDigits(r[..|r| - 3]) && AllDigits(r[|r| - 2..])
    ensures r[..|r| - 3] + r[|r| - 2..] == digits
  {
    var integral := DropLast(digits, 2);
    var cents := TakeLast(digits, 2);
    var r := integral + "," + cents;
    assert r[..|r| - 3] == integral;
    assert r[|r| - 2..] == cents;
    assert integral + cents == digits;
    r
  }

  /** `String(price).padStart(3, '0')`: at least three digits, all but the
      last two being "0" exactly when the price is below 100, and the plain
      digits from 100 on. */
  function PaddedDigits(price: nat): (p: string)
    ensures |p| >= 3 && AllDigits(p)
    ensures price < 100 <==> p[..|p| - 2] == "0"
    ensures price >= 100 ==> p == NatToString(price)
  {
    var digits := NatToString(price);
    var p := PadStart(digits, 3, '0');
    NatToStringTwoDigits(price);
    NatToStringShape(price);
    if price < 100 then
      assert |p| == 3 && p[0] == '0';
      assert p[..1] == [p[0]];
      p
    else
      assert p == digits;
      assert p[..|p| - 2][0] == digits[0];
      p
  }

  /** The padded digits of `price`, with ',' before the last two. */
  function FormatPriceValue(price: nat): (r: string)
    ensures |r| >= 4 && r[|r| - 3] == ','
  {
    InsertComma(PaddedDigits(price))
  }

  /** Both sides of the comma of a formatted price are digits ... */
  lemma FormatPriceDigits(price: nat)
    ensures var r := FormatPriceValue(price);
      AllDigits(r[..|r| - 3]) && AllDigits(r[|r| - 2..])
  {
    var r := InsertComma(PaddedDigits(price));
    assert FormatPriceValue(price) == r;
  }

  /** ... and together they are the padded digits ... */
  lemma FormatPriceConcat(price: nat)
    ensures var r := FormatPriceValue(price);
      r[..|r| - 3] + r[|r| - 2..] == PaddedDigits(price)
  {
    var r := InsertComma(PaddedDigits(price));
    assert FormatPriceValue(price) == r;
  }

  /** Prices below one unit show "0," and two zero-padded digits. */
  lemma FormatSmallPrice(price: nat)
    requires price < 100
    ensures FormatPriceValue(price) ==
      "0," + (if price < 10 then "0" + NatToString(price) else NatToString(price))
  {
    NatToStringTwoDigits(price);
  }

  /** From one unit up, the digits of the formatted price are the plain
      digits of the price, so it starts with a non-zero digit. */
  lemma FormatLargePrice(price: nat)
    requires price >= 100
    ensures var r := FormatPriceValue(price);
      r[..|r| - 3] + r[|r| - 2..] == NatToString(price) && r[0] != '0'
  {
    var r := FormatPriceValue(price);
    FormatPriceConcat(price);
    NatToStringShape(price);
    assert r[0] == (r[..|r| - 3] + r[|r| - 2..])[0];
  }

  /** The integral side of the formatted price is "0" exactly below one unit. */
  lemma FormatPriceUnits(price: nat)
    ensures var r := FormatPriceValue(price);
      price < 100 <==> r[..|r| - 3] == "0"
  {
    var r := FormatPriceValue(price);
    if price < 100 {
      FormatSmallPrice(price);
      assert |r| == 4;
    } else {
      FormatLargePrice(price);
      assert r[..|r| - 3][0] == r[0];
    }
  }

  /** Reading the padded digits gives the price back: the padding is zeros. */
  lemma PaddedDigitsParse(price: nat)
    ensures ParseDigits(PaddedDigits(price)) == price
  {
    var digits := NatToString(price);
    var padded := PaddedDigits(price);
    assert padded == PadStart(digits, 3, '0');
    var zeros := padded[..|padded| - |digits|];
    assert padded == zeros + digits;
    ParseLeadingZeros(zeros, digits);
    ParseNatToString(price);
  }

  /** Deleting the comma and reading the digits gives the price back. */
  lemma FormatPriceRoundTrip(price: nat)
    ensures var r := FormatPriceValue(price);
      AllDigits(r[..|r| - 3] + r[|r| - 2..]) &&
      ParseDigits(r[..|r| - 3] + r[|r| - 2..]) == price
  {
    FormatPriceDigits(price);
    FormatPriceConcat(price);
    PaddedDigitsParse(price);
  }

  lemma FormatPriceSmallExamples()
    ensures FormatPriceValue(0) == "0,00"
    ensures FormatPriceValue(5) == "0,05"
  {
    assert NatToString(0) == "0" && NatToString(5) == "5";
    FormatSmallPrice(0);
    FormatSmallPrice(5);
  }

  lemma LargeExampleDigits()
    ensures NatToString(123456) == "123456"
  {
    assert NatToString(1) == "1";
    assert NatToString(12) == "12";
    assert NatToString(123) == "123";
    assert NatToString(1234) == "1234";
    assert NatToString(12345) == "12345";
  }

  lemma FormatPriceLargeExample()
    ensures FormatPriceValue(123456) == "1234,56"
  {
    var digits := "123456";
    LargeExampleDigits();
    assert PaddedDigits(123456) == digits;
    assert DropLast(digits, 2) == "1234" && TakeLast(digits, 2) == "56";
    assert InsertComma(digits) == "1234,56";
  }
}
