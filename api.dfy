/** The backend requests the core issues, as abstract values, and the
    shapes of their parameters and replies. The HTTP client itself is not
    part of this model. */
module Api {
  import opened Wrappers
  import opened ProductDto

  /** A rejected call: a recognised application error carrying a message
      for the user, or any other failure. */
  datatype ApiError = AppError(message: string) | UnexpectedError

  /** Query parameters of a catalog listing; an absent key is not sent. */
  datatype FetchParams = FetchParams(
    isNew: Option<bool>,
    acceptTrade: Option<bool>,
    paymentMethods: Option<seq<string>>,
    query: Option<string>)

  const NoParams := FetchParams(None, None, None, None)

  /** The metadata JSON sent when a product is created or updated. */
  datatype ProductBody = ProductBody(
    name: string,
    description: string,
    isNew: bool,
    price: nat,
    acceptTrade: bool,
    paymentMethods: seq<string>)

  datatype Request =
    | ListProducts(userProductsView: bool, params: FetchParams)  // GET [/users]/products
    | GetProduct(productId: string)                               // GET /products/{id}
    | CreateProduct(body: ProductBody)                            // POST /products
    | UpdateProduct(productId: string, body: ProductBody)         // PUT /products/{id}
    | DeleteImages(productImagesIds: seq<string>)                 // DELETE /products/images
    | UploadImages(images: seq<PhotoFile>, productId: string)     // POST /products/images (multipart)

  /** Reply to one request: success (with the `id` the backend returns,
      which only product creation uses) or rejection. */
  datatype Reply = Accepted(id: string) | Rejected(error: ApiError)

  /** The route of a request; a listing goes to the user's own products
      exactly when the user view is asked for. */
  function Path(r: Request): (p: string)
    ensures r.ListProducts? ==> (p == "/users/products" <==> r.userProductsView)
    ensures r.ListProducts? ==> (p == "/products" <==> !r.userProductsView)
  {
    match r
    case ListProducts(userView, _) =>
      var productRoute := if userView then "/users" else "";
      productRoute + "/products"
    case GetProduct(id) => "/products/" + id
    case CreateProduct(_) => "/products"
    case UpdateProduct(id, _) => "/products/" + id
    case DeleteImages(_) => "/products/images"
    case UploadImages(_, _) => "/products/images"
  }
}
