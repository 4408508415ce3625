/** The catalog filter dialog (src/components/FilterModal.tsx): the
    mutually exclusive new/used buttons, the query parameters of an applied
    filter, and the reset. Its query text is the home screen's
    `productName`, and closing it clears the home screen's `showModal`. */
module FilterModal {
  import opened Wrappers
  import opened ProductDto
  import opened Api
  import opened ProductContext
  import opened Home

  /** The (new, used) flags after pressing the button `condition`. Pressing
      a button flips its own flag; selecting clears the other flag,
      deselecting leaves it alone; any other value changes nothing. */
  function ConditionAfter(condition: string, isNew: bool, isUsed: bool): (flags: (bool, bool))
    ensures !(isNew && isUsed) ==> !(flags.0 && flags.1)
    ensures condition == "new" ==>
      flags.0 == !isNew && (flags.0 ==> !flags.1) && (!flags.0 ==> flags.1 == isUsed)
    ensures condition == "used" ==>
      flags.1 == !isUsed && (flags.1 ==> !flags.0) && (!flags.1 ==> flags.0 == isNew)
    ensures condition != "new" && condition != "used" ==> flags == (isNew, isUsed)
  {
    if condition == "new" && isNew then (false, isUsed)
    else if condition == "new" && !isNew then (true, false)
    else if condition == "used" && isUsed then (isNew, false)
    else if condition == "used" && !isUsed then (false, true)
    else (isNew, isUsed)
  }

  /** The parameters of an applied filter: `is_new` is left out when
      neither condition is selected, and otherwise is the "new" flag (so
      "used" alone sends false); the rest pass through. */
  function ApplyParams(isNew: bool, isUsed: bool, acceptTrade: bool, payments: seq<string>, query: string): (params: FetchParams)
    ensures params.isNew.None? <==> !isNew && !isUsed
    ensures params.isNew.Some? ==> params.isNew.value == isNew
    ensures isUsed && !isNew ==> params.isNew == Some(false)
    ensures params.acceptTrade == Some(acceptTrade)
    ensures params.paymentMethods == Some(payments) && params.query == Some(query)
  {
    var params := FetchParams(Some(isNew), Some(acceptTrade), Some(payments), Some(query));
    if !isUsed && !isNew then params.(isNew := None) else params
  }

  /** Applying with nothing selected still sends the trade switch, the
      empty payment list and the query, so it is not the same request as a
      reset. */
  lemma ClearedApplyIsNotReset(query: string)
    ensures ApplyParams(false, false, false, [], query) != NoParams
    ensures ApplyParams(false, false, false, [], query).isNew == NoParams.isNew
  {
  }

  class FilterModalState {
    var isNewSelected: bool
    var isUsedSelected: bool
    var acceptTradeSwitch: bool
    var paymentMethods: seq<string>

    constructor ()
      ensures !isNewSelected && !isUsedSelected && !acceptTradeSwitch && paymentMethods == []
    {
      isNewSelected := false;
      isUsedSelected := false;
      acceptTradeSwitch := false;
      paymentMethods := [];
    }

    predicate AtMostOneCondition()
      reads this
    {
      !(isNewSelected && isUsedSelected)
    }

    /** `handleConditionFilter`. */
    method HandleConditionFilter(condition: string)
      modifies this`isNewSelected, this`isUsedSelected
      ensures (isNewSelected, isUsedSelected) == ConditionAfter(condition, old(isNewSelected), old(isUsedSelected))
      ensures old(AtMostOneCondition()) ==> AtMostOneCondition()
    {
      if condition == "new" && isNewSelected {
        isNewSelected := false;
      } else if condition == "new" && !isNewSelected {
        isNewSelected := true;
        isUsedSelected := false;
      } else if condition == "used" && isUsedSelected {
        isUsedSelected := false;
      } else if condition == "used" && !isUsedSelected {
        isNewSelected := false;
        isUsedSelected := true;
      }
    }

    /** `handleResetFilter`: clears every control and the query, then lists
        the catalog with no parameters; the dialog closes only if that
        listing succeeds. */
    method HandleResetFilter(home: HomeScreen, store: ProductStore, reply: Result<seq<Product>, ApiError>)
      returns (request: Request, error: Option<ApiError>)
      modifies this, home`productName, home`showModal, store
      ensures !isNewSelected && !isUsedSelected && !acceptTradeSwitch && paymentMethods == []
      ensures home.productName == ""
      ensures request == ListProducts(false, NoParams)
      ensures error.None? <==> reply.Success?
      ensures reply.Success? ==> !home.showModal && store.products == reply.value && store.filteredProducts == reply.value
      ensures reply.Failure? ==> home.showModal == old(home.showModal) && error == Some(reply.error)
      ensures reply.Failure? ==> store.products == old(store.products) && store.filteredProducts == old(store.filteredProducts)
      ensures store.userProducts == old(store.userProducts) && store.productPreview == old(store.productPreview)
      ensures store.product == old(store.product) && store.photosForSlide == old(store.photosForSlide)
      ensures !store.isLoading
    {
      isNewSelected := false;
      isUsedSelected := false;
      acceptTradeSwitch := false;
      paymentMethods := [];
      home.productName := "";
      request, error := store.FetchProducts(false, NoParams, reply);
      if error.None? {
        home.showModal := false;
      }
    }

    /** `handleApplyFilter`: lists the catalog with the dialog's parameters
        and the home screen's query; the dialog closes only on success. */
    method HandleApplyFilter(home: HomeScreen, store: ProductStore, reply: Result<seq<Product>, ApiError>)
      returns (request: Request, error: Option<ApiError>)
      modifies home`showModal, store
      ensures request == ListProducts(false,
        ApplyParams(isNewSelected, isUsedSelected, acceptTradeSwitch, paymentMethods, home.productName))
      ensures error.None? <==> reply.Success?
      ensures reply.Success? ==> !home.showModal && store.products == reply.value && store.filteredProducts == reply.value
      ensures reply.Failure? ==> home.showModal == old(home.showModal) && error == Some(reply.error)
      ensures reply.Failure? ==> store.products == old(store.products) && store.filteredProducts == old(store.filteredProducts)
      ensures store.userProducts == old(store.userProducts) && store.productPreview == old(store.productPreview)
      ensures store.product == old(store.product) && store.photosForSlide == old(store.photosForSlide)
      ensures !store.isLoading
    {
      var params := FetchParams(Some(isNewSelected), Some(acceptTradeSwitch), Some(paymentMethods), Some(home.productName));
      if !isUsedSelected && !isNewSelected {
        params := params.(isNew := None);
      }
      request, error := store.FetchProducts(false, params, reply);
      if error.None? {
        home.showModal := false;
      }
    }
  }
}
