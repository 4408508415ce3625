/** The product record exchanged with the backend and held by the client
    (src/dtos/ProductDTO.ts). JSON keys appear as camel-cased fields:
    `is_new` is `isNew`, `product_images` is `productImages`, and so on. */
module ProductDto {
  import opened Wrappers

  /** One entry of the payment catalog: a key and its display name. */
  datatype PaymentMethod = PaymentMethod(key: string, name: string)

  /** `payment_methods`: either bare keys or `{key, name}` pairs. */
  datatype PaymentMethods =
    | PaymentKeys(keys: seq<string>)
    | PaymentPairs(pairs: seq<PaymentMethod>)

  /** An image stored by the backend (`ProductImagesDTO`). */
  datatype ImageDescriptor = ImageDescriptor(id: string, path: string)

  /** A local file picked from the device (`PhotoFileProps`): `mimeType` is
      the `type` field, `"<media type>/<extension>"`. */
  datatype PhotoFile = PhotoFile(name: string, uri: string, mimeType: string)

  /** One entry of `product_images`: an image the backend already stores, or
      a file staged on the device that still has to be uploaded. */
  datatype ProductImage =
    | ServerImage(image: ImageDescriptor)
    | StagedPhoto(file: PhotoFile)

  /** A staged file always carries a non-empty type. */
  predicate WellFormedImage(img: ProductImage)
  {
    img.StagedPhoto? ==> img.file.mimeType != ""
  }

  /** The `name` the screens use for an image: a stored image is named by its id. */
  function PhotoName(img: ProductImage): string
  {
    match img
    case ServerImage(d) => d.id
    case StagedPhoto(f) => f.name
  }

  /** The `type` the screens read: empty for an image the backend stores. */
  function TypeMarker(img: ProductImage): string
  {
    match img
    case ServerImage(_) => ""
    case StagedPhoto(f) => f.mimeType
  }

  /** The `PhotoFileProps` record the screens hold for an image. A stored
      image becomes `{name: id, uri: <base URL>/images/<path>, type: ''}`. */
  function PhotoView(baseUrl: string, img: ProductImage): (f: PhotoFile)
    ensures f.name == PhotoName(img) && f.mimeType == TypeMarker(img)
    ensures WellFormedImage(img) ==> (f.mimeType == "" <==> img.ServerImage?)
    ensures img.ServerImage? ==> f.uri == baseUrl + "/images/" + img.image.path
  {
    match img
    case ServerImage(d) => PhotoFile(d.id, baseUrl + "/images/" + d.path, "")
    case StagedPhoto(f) => f
  }

  datatype UserSummary = UserSummary(name: Option<string>, avatar: Option<string>, tel: Option<string>)

  datatype Product = Product(
    id: string,
    name: string,
    description: string,
    price: nat,
    isNew: bool,
    isActive: Option<bool>,
    acceptTrade: bool,
    productImages: seq<ProductImage>,
    paymentMethods: PaymentMethods,
    user: Option<UserSummary>,
    userId: Option<string>,
    deletedPhotosOnEdit: Option<seq<string>>)

  /** The payment keys of a product, in the order it lists them. */
  function PaymentKeysOf(pm: PaymentMethods): (keys: seq<string>)
    ensures pm.PaymentPairs? ==>
      |keys| == |pm.pairs| && forall i :: 0 <= i < |keys| ==> keys[i] == pm.pairs[i].key
    ensures pm.PaymentKeys? ==> keys == pm.keys
  {
    match pm
    case PaymentKeys(ks) => ks
    case PaymentPairs(ps) => seq(|ps|, i requires 0 <= i < |ps| => ps[i].key)
  }
}
