/** The in-memory product store shared by the screens
    (src/contexts/ProductContext.tsx): the catalog, the filtered view of it,
    the user's own listings, one detail record with its slide images, and
    the draft being composed. The backend's reply to each fetch is a
    parameter of the method that issues it. */
module ProductContext {
  import opened Wrappers
  import opened ProductDto
  import opened Api

  /** `ProductPreviewDefaultValues`: the blank draft of a product not yet created. */
  const DefaultPreview: Product := Product(
    id := "0", name := "", description := "", price := 0, isNew := true,
    isActive := None, acceptTrade := false, productImages := [],
    paymentMethods := PaymentPairs([]), user := None, userId := None,
    deletedPhotosOnEdit := None)

  /** The blank draft has the sentinel id and holds nothing yet. */
  predicate IsBlankDraft(p: Product)
  {
    && p.id == "0" && p.name == "" && p.description == "" && p.price == 0
    && p.isNew && !p.acceptTrade && p.productImages == []
    && PaymentKeysOf(p.paymentMethods) == []
  }

  lemma DefaultPreviewIsBlank()
    ensures IsBlankDraft(DefaultPreview)
  {
  }

  class ProductStore {
    var isLoading: bool
    var products: seq<Product>
    var filteredProducts: seq<Product>
    var userProducts: seq<Product>
    /** The detail record; `None` before any product was fetched. */
    var product: Option<Product>
    var productPreview: Product
    var photosForSlide: seq<ProductImage>

    constructor ()
      ensures isLoading
      ensures products == [] && filteredProducts == [] && userProducts == []
      ensures product == None && photosForSlide == []
      ensures productPreview == DefaultPreview
    {
      isLoading := true;
      products := [];
      filteredProducts := [];
      userProducts := [];
      product := None;
      productPreview := DefaultPreview;
      photosForSlide := [];
    }

    /** `fetchProducts`: lists the catalog, or the user's own listings when
        `userProductsView` is set, and stores the reply. A rejection is passed
        back to the caller and changes no collection. */
    method FetchProducts(userProductsView: bool, params: FetchParams, reply: Result<seq<Product>, ApiError>)
      returns (request: Request, error: Option<ApiError>)
      modifies this
      ensures request == ListProducts(userProductsView, params)
      ensures !isLoading
      ensures error == if reply.Failure? then Some(reply.error) else None
      ensures reply.Success? && userProductsView ==>
        userProducts == reply.value && products == old(products) && filteredProducts == old(filteredProducts)
      ensures reply.Success? && !userProductsView ==>
        products == reply.value && filteredProducts == reply.value && userProducts == old(userProducts)
      ensures reply.Failure? ==>
        products == old(products) && filteredProducts == old(filteredProducts) && userProducts == old(userProducts)
      ensures product == old(product) && productPreview == old(productPreview) && photosForSlide == old(photosForSlide)
    {
      isLoading := true;
      request := ListProducts(userProductsView, params);
      match reply {
        case Success(data) =>
          if userProductsView {
            userProducts := data;
          } else {
            products := data;
            filteredProducts := data;
          }
          error := None;
        case Failure(e) =>
          error := Some(e);
      }
      isLoading := false;
    }

    /** `fetchProduct`: loads one product as the detail record and its images
        as the slides. */
    method FetchProduct(productId: string, reply: Result<Product, ApiError>)
      returns (request: Request, error: Option<ApiError>)
      modifies this
      ensures request == GetProduct(productId) && Path(request) == "/products/" + productId
      ensures !isLoading
      ensures error == if reply.Failure? then Some(reply.error) else None
      ensures reply.Success? ==> product == Some(reply.value) && photosForSlide == reply.value.productImages
      ensures reply.Failure? ==> product == old(product) && photosForSlide == old(photosForSlide)
      ensures products == old(products) && filteredProducts == old(filteredProducts)
      ensures userProducts == old(userProducts) && productPreview == old(productPreview)
    {
      isLoading := true;
      request := GetProduct(productId);
      match reply {
        case Success(data) =>
          product := Some(data);
          photosForSlide := data.productImages;
          error := None;
        case Failure(e) =>
          error := Some(e);
      }
      isLoading := false;
    }

    /** `setFilteredProducts`, used by the screens that filter locally. */
    method SetFilteredProducts(view: seq<Product>)
      modifies this`filteredProducts
      ensures filteredProducts == view
    {
      filteredProducts := view;
    }

    /** `setProductPreview`, used by the composition screens. */
    method SetProductPreview(draft: Product)
      modifies this`productPreview
      ensures productPreview == draft
    {
      productPreview := draft;
    }
  }
}
