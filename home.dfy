/** The home screen (src/screens/Home.tsx): the name search over the
    catalog, the case-sensitive name filter, and the counter of the user's
    active listings. */
module Home {
  import opened Wrappers
  import opened Strings
  import opened Seqs
  import opened ProductDto
  import opened ProductContext

  /** The search test: the lower-cased name contains the lower-cased input. */
  function SearchTest(input: string): Product -> bool
  {
    (p: Product) => Contains(ToLower(p.name), ToLower(input))
  }

  /** The name filter test: the name contains the text as written. */
  function ExactTest(text: string): Product -> bool
  {
    (p: Product) => Contains(p.name, text)
  }

  /** A listing counts as active when `is_active` is present and true. */
  predicate IsActiveListing(p: Product)
  {
    p.isActive == Some(true)
  }

  /** The products found by a search, in catalog order; an empty input
      finds the whole catalog. */
  function SearchByName(products: seq<Product>, input: string): (found: seq<Product>)
    ensures IsSubsequence(found, products)
    ensures forall p :: p in found <==> p in products && Contains(ToLower(p.name), ToLower(input))
    ensures input == "" ==> found == products
  {
    var keep := SearchTest(input);
    assert input == "" ==> Filter(products, keep) == products by {
      if input == "" {
        forall p | p in products
          ensures keep(p)
        {
          ContainsEmpty(ToLower(p.name));
        }
        FilterKeepsAll(products, keep);
      }
    }
    Filter(products, keep)
  }

  /** The products whose name contains `text` case-sensitively, in order. */
  function ExactNameFilter(products: seq<Product>, text: string): (found: seq<Product>)
    ensures IsSubsequence(found, products)
    ensures forall p :: p in found <==> p in products && Contains(p.name, text)
  {
    Filter(products, ExactTest(text))
  }

  /** The case-sensitive filter finds an order-preserving part of what the
      search finds for the same text. */
  lemma ExactNameWithinSearch(products: seq<Product>, text: string)
    ensures IsSubsequence(ExactNameFilter(products, text), SearchByName(products, text))
    ensures forall p :: p in ExactNameFilter(products, text) ==> p in SearchByName(products, text)
  {
    var search := SearchTest(text);
    var exact := ExactTest(text);
    forall p
      ensures exact(p) == (search(p) && exact(p))
    {
      if exact(p) {
        ContainsToLower(p.name, text);
      }
    }
    FilterOfFilter(products, search, exact, exact);
  }

  /** The user's home view state; `productName` is also the filter modal's query. */
  class HomeScreen {
    var productName: string
    var showModal: bool
    var userActiveAdvertisements: nat

    constructor ()
      ensures productName == "" && !showModal && userActiveAdvertisements == 0
    {
      productName := "";
      showModal := false;
      userActiveAdvertisements := 0;
    }

    /** `handleSearchInput`: stores the input and shows the search result over
        the whole catalog, whatever view was shown before. */
    method HandleSearchInput(store: ProductStore, input: string)
      modifies this`productName, store`filteredProducts
      ensures productName == input
      ensures store.filteredProducts == SearchByName(store.products, input)
    {
      productName := input;
      store.SetFilteredProducts(SearchByName(store.products, input));
    }

    /** `filterProducts`: the catalog narrowed by the stored name, case-sensitively. */
    method FilterProducts(store: ProductStore)
      modifies store`filteredProducts
      ensures store.filteredProducts == ExactNameFilter(store.products, productName)
    {
      store.SetFilteredProducts(ExactNameFilter(store.products, productName));
    }

    /** `countNumberOfActiveUserProducts`: stores the count of active listings. */
    method CountNumberOfActiveUserProducts(store: ProductStore)
      modifies this`userActiveAdvertisements
      ensures userActiveAdvertisements == |Filter(store.userProducts, IsActiveListing)|
      ensures userActiveAdvertisements <= |store.userProducts|
    {
      userActiveAdvertisements := CountActiveListings(store.userProducts);
    }
  }

  /** The counting loop: one increment per listing whose `is_active` holds. */
  method CountActiveListings(products: seq<Product>) returns (count: nat)
    ensures count == |Filter(products, IsActiveListing)|
  {
    count := 0;
    for i := 0 to |products|
      invariant count == |Filter(products[..i], IsActiveListing)|
    {
      FilterPrefixLength(products, i, IsActiveListing);
      if products[i].isActive == Some(true) {
        count := count + 1;
      }
    }
    assert products[..|products|] == products;
  }

  /** The count equals the number of listings exactly when every listing is active. */
  lemma ActiveCountIsFull(products: seq<Product>)
    ensures |Filter(products, IsActiveListing)| == |products| <==>
      forall p :: p in products ==> IsActiveListing(p)
  {
    AllKeptIffFullSize(products, IsActiveListing);
  }
}
