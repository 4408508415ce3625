/** The fixed payment catalog (src/utils/findPaymentOptions.ts). */
module PaymentOptions {
  import opened ProductDto

  /** The keys of a list of payment methods, in order. */
  function KeysOf(options: seq<PaymentMethod>): (keys: seq<string>)
    ensures |keys| == |options| && forall i :: 0 <= i < |options| ==> keys[i] == options[i].key
  {
    seq(|options|, i requires 0 <= i < |options| => options[i].key)
  }

  /** The five payment methods a listing may accept, with their labels. */
  function GetPaymentOptions(): (options: seq<PaymentMethod>)
    ensures |options| == 5
    ensures KeysOf(options) == ["boleto", "pix", "cash", "card", "deposit"]
    ensures forall i, j :: 0 <= i < j < |options| ==> options[i].key != options[j].key
    ensures forall i :: 0 <= i < |options| ==> options[i].name != ""
  {
    [ PaymentMethod("boleto", "Boleto"),
      PaymentMethod("pix", "Pix"),
      PaymentMethod("cash", "Dinheiro"),
      PaymentMethod("card", "Cartão de Crédito"),
      PaymentMethod("deposit", "Depósito Bancário") ]
  }
}
