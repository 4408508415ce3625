/** The product card's text (src/components/ProductInfo.tsx): payment
    labels, the one-row/two-row layout choice and the price each layout
    shows, the condition badge, the trade label and the deactivated banner. */
module ProductInfo {
  import opened Wrappers
  import opened Strings
  import opened ProductDto
  import opened PaymentOptions
  import opened PriceFormat

  /** The label shown next to a payment key; unknown keys read "Pix". */
  function PaymentLabel(key: string): (text: string)
    ensures key !in KeysOf(GetPaymentOptions()) ==> text == "Pix"
    ensures exists m :: m in GetPaymentOptions() && m.name == text
  {
    assert GetPaymentOptions()[1].name == "Pix";
    if key == "card" then "Cartão de Crédito"
    else if key == "deposit" then "Depósito Bancário"
    else if key == "cash" then "Dinheiro"
    else if key == "pix" then "Pix"
    else if key == "boleto" then "Boleto"
    else "Pix"
  }

  /** Every catalog key is labelled with its catalog name. */
  lemma CatalogLabelsAgree(m: PaymentMethod)
    requires m in GetPaymentOptions()
    ensures PaymentLabel(m.key) == m.name
  {
  }

  /** Name and price share one row when the name's `length` (in UTF-16
      units) plus the number of digits of the price is at most 30: a name
      of at most 29 units always does below 10 cents, one of 30 never does. */
  function UsesOneRowLayout(name: string, price: nat): (oneRow: bool)
    ensures oneRow ==> Utf16Length(name) <= 29
    ensures price < 10 ==> (oneRow <==> Utf16Length(name) <= 29)
  {
    NatToStringShape(price);
    Utf16Length(name) + |NatToString(price)| <= 30
  }

  /** A shorter name and a lower price never leave the one-row layout. */
  lemma OneRowLayoutMonotone(name: string, price: nat, longerName: string, higherPrice: nat)
    requires Utf16Length(name) <= Utf16Length(longerName) && price <= higherPrice
    requires UsesOneRowLayout(longerName, higherPrice)
    ensures UsesOneRowLayout(name, price)
  {
    NatToStringLengthMonotone(price, higherPrice);
  }

  /** The name is measured in UTF-16 units: 28 letters and one emoji make
      29 characters but 30 units, so with a one-digit price the card takes
      two rows. */
  lemma OneRowLayoutCountsUtf16Units()
    ensures var name := Repeat('a', 28) + ['\U{1F600}'];
      |name| + |NatToString(5)| == 30 && !UsesOneRowLayout(name, 5)
  {
    var letters := Repeat('a', 28);
    Utf16LengthBmp(letters);
    Utf16LengthAppend(letters, ['\U{1F600}']);
    assert Utf16Length(['\U{1F600}']) == 2 by {
      assert ['\U{1F600}'][..0] == [];
    }
    assert NatToString(5) == "5";
  }

  /** The two-row price: the digits minus the last two, ',', the last two,
      with no padding. From one unit up it is the formatted price; below, it
      is a bare ',' and the digits. */
  function LongLayoutPrice(price: nat): (text: string)
    ensures price >= 100 ==> text == FormatPriceValue(price)
    ensures price < 100 ==> text == "," + NatToString(price)
  {
    var digits := NatToString(price);
    var text := DropLast(digits, 2) + "," + TakeLast(digits, 2);
    NatToStringTwoDigits(price);
    if price >= 100 then
      assert PaddedDigits(price) == digits;
      assert FormatPriceValue(price) == InsertComma(digits);
      text
    else
      assert DropLast(digits, 2) == [] && TakeLast(digits, 2) == digits;
      text
  }

  lemma LongLayoutSmallPrice()
    ensures LongLayoutPrice(5) == ",5" && FormatPriceValue(5) == "0,05"
  {
    FormatPriceSmallExamples();
    assert NatToString(5) == "5";
  }

  /** The price the card shows. */
  function DisplayedPrice(name: string, price: nat): (text: string)
    ensures UsesOneRowLayout(name, price) ==> text == FormatPriceValue(price)
    ensures !UsesOneRowLayout(name, price) ==> text == LongLayoutPrice(price)
  {
    if UsesOneRowLayout(name, price) then FormatPriceValue(price) else LongLayoutPrice(price)
  }

  /** The two layouts disagree exactly for a two-row card whose price is
      below one unit. */
  lemma DisplayedPriceDiffers(name: string, price: nat)
    ensures DisplayedPrice(name, price) != FormatPriceValue(price) <==>
      !UsesOneRowLayout(name, price) && price < 100
  {
    if !UsesOneRowLayout(name, price) && price < 100 {
      FormatSmallPrice(price);
      assert DisplayedPrice(name, price)[0] == ',';
      assert FormatPriceValue(price)[0] == '0';
    }
  }

  function ConditionBadge(isNew: bool): (badge: string)
    ensures badge == "NOVO" <==> isNew
    ensures badge == "USADO" <==> !isNew
  {
    if isNew then "NOVO" else "USADO"
  }

  function TradeLabel(acceptTrade: bool): (text: string)
    ensures text == "Sim" <==> acceptTrade
    ensures text == "Não" <==> !acceptTrade
  {
    if acceptTrade then "Sim" else "Não"
  }

  /** `!is_active`: the "deactivated" banner covers the photos when the
      flag is false or absent, and only then. */
  function ShowsDeactivatedBanner(p: Product): (shown: bool)
    ensures shown <==> p.isActive.None? || p.isActive == Some(false)
    ensures !shown <==> p.isActive == Some(true)
  {
    match p.isActive
    case None => true
    case Some(active) => !active
  }
}
