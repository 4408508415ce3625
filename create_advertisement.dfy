/** The advertisement form (src/screens/CreateAdvertisement.tsx): photo
    staging with its limits, removal of photos with deferred deletion of
    stored ones, the zero-photo guard, and the mapping between the form,
    the draft held by the store and a product loaded for editing. */
module CreateAdvertisement {
  import opened Wrappers
  import opened Strings
  import opened Seqs
  import opened ProductDto
  import opened Api
  import opened PaymentOptions
  import PriceFormat
  import AdvertisementSchema
  import opened ProductContext

  const MaxPhotos := 3
  /** 8 MiB: `size / 1024 / 1024 > 8` holds exactly when `size` exceeds it. */
  const MaxPhotoBytes := 8 * 1024 * 1024

  const NewCondition := "Produto novo"
  const UsedCondition := "Produto usado"

  /** The values of the form's fields; `condition` is the radio value. */
  datatype FormValues = FormValues(
    name: string,
    description: string,
    condition: string,
    price: string,
    acceptTrade: bool,
    paymentMethods: seq<string>)

  const EmptyForm := FormValues("", "", "", "", false, [])

  /** A file returned by the image picker, with the size the file system
      reports for it (absent when it reports none). */
  datatype PickedAsset = PickedAsset(uri: string, assetId: string, mediaType: string, size: Option<nat>)

  datatype PickOutcome =
    | PickCanceled
    | TooManyPhotos
    | PhotosProcessed(oversized: nat)

  /** `uri.split('.').pop()`: the text after the last '.', or all of it. */
  function FileExtension(uri: string): (ext: string)
    ensures |ext| <= |uri| && ext == uri[|uri| - |ext|..]
    ensures forall k :: 0 <= k < |ext| ==> ext[k] != '.'
    ensures |ext| < |uri| ==> uri[|uri| - |ext| - 1] == '.'
    decreases |uri|
  {
    if uri == [] || uri[|uri| - 1] == '.' then []
    else FileExtension(uri[..|uri| - 1]) + [uri[|uri| - 1]]
  }

  /** The size check `size && size / 1024 / 1024 > 8`, on whole bytes: a
      reported, non-zero size over 8 MiB rejects the file. */
  function TooLarge(size: Option<nat>): (tooLarge: bool)
    ensures tooLarge <==> size.Some? && size.value != 0 && (size.value as real) / 1024.0 / 1024.0 > 8.0
  {
    size.Some? && size.value > 0 && size.value > MaxPhotoBytes
  }

  /** Whether the asset is appended: it has a uri, and its size is unknown
      or at most 8 MiB. */
  function AcceptsAsset(asset: PickedAsset): (accepted: bool)
    ensures accepted <==> asset.uri != "" && (asset.size.None? || asset.size.value <= MaxPhotoBytes)
  {
    asset.uri != "" && !TooLarge(asset.size)
  }

  /** `image_${index}_${assetId}`: the name given to the asset at position
      `index` of the batch. */
  function StagedName(asset: PickedAsset, index: nat): (name: string)
    ensures |name| == 7 + |NatToString(index)| + |asset.assetId|
    ensures name[..6] == "image_" && name[6..6 + |NatToString(index)|] == NatToString(index)
    ensures name[6 + |NatToString(index)|] == '_' && name[|name| - |asset.assetId|..] == asset.assetId
  {
    var digits := NatToString(index);
    var name := "image_" + digits + "_" + asset.assetId;
    assert name[6..6 + |digits|] == digits;
    assert name[|name| - |asset.assetId|..] == asset.assetId;
    name
  }

  /** The name determines the batch position and the asset id, so the photos
      of one batch have distinct names. */
  lemma StagedNameInjective(a: PickedAsset, i: nat, b: PickedAsset, j: nat)
    requires StagedName(a, i) == StagedName(b, j)
    ensures i == j && a.assetId == b.assetId
  {
    var name := StagedName(a, i);
    var di := NatToString(i);
    var dj := NatToString(j);
    if |di| != |dj| {
      assert false;
    }
    assert di == dj;
    ParseNatToString(i);
    ParseNatToString(j);
  }

  /** `${type}/${extension}`: the media type, '/', and the file extension. */
  function StagedType(asset: PickedAsset): (mimeType: string)
    ensures |mimeType| > |asset.mediaType| && mimeType[|asset.mediaType|] == '/'
    ensures mimeType[..|asset.mediaType|] == asset.mediaType
    ensures mimeType[|asset.mediaType| + 1..] == FileExtension(asset.uri)
  {
    asset.mediaType + "/" + FileExtension(asset.uri)
  }

  /** The staged record for the asset at position `index` of the batch. */
  function StagedFile(asset: PickedAsset, index: nat): (img: ProductImage)
    ensures img.StagedPhoto? && WellFormedImage(img) && TypeMarker(img) != ""
    ensures img.file.uri == asset.uri
  {
    StagedPhoto(PhotoFile(StagedName(asset, index), asset.uri, StagedType(asset)))
  }

  /** The photos appended for the first `n` assets of a batch, in order. */
  function AcceptedPhotos(assets: seq<PickedAsset>, n: nat): (photos: seq<ProductImage>)
    requires n <= |assets|
    ensures |photos| <= n
  {
    MapWhere(assets, n, AcceptsAsset, StagedFile)
  }

  /** One more asset: the photos so far, then its file if it is accepted. */
  lemma AcceptedPhotosStep(assets: seq<PickedAsset>, i: nat)
    requires i < |assets|
    ensures AcceptsAsset(assets[i]) ==>
      AcceptedPhotos(assets, i + 1) == AcceptedPhotos(assets, i) + [StagedFile(assets[i], i)]
    ensures !AcceptsAsset(assets[i]) ==> AcceptedPhotos(assets, i + 1) == AcceptedPhotos(assets, i)
  {
  }

  /** Every photo a batch stages is the staged file of an accepted asset,
      so it is a well-formed staged file with a type. */
  lemma AcceptedPhotosAreStaged(assets: seq<PickedAsset>, n: nat, k: nat)
    requires n <= |assets| && k < |AcceptedPhotos(assets, n)|
    ensures exists j :: 0 <= j < n && AcceptsAsset(assets[j]) && AcceptedPhotos(assets, n)[k] == StagedFile(assets[j], j)
    ensures AcceptedPhotos(assets, n)[k].StagedPhoto?
    ensures WellFormedImage(AcceptedPhotos(assets, n)[k]) && TypeMarker(AcceptedPhotos(assets, n)[k]) != ""
  {
    MapWhereSource(assets, n, AcceptsAsset, StagedFile, k);
  }

  /** How many assets among the first `n` were refused for their size. */
  function OversizedCount(assets: seq<PickedAsset>, n: nat): (c: nat)
    requires n <= |assets|
    ensures c <= n
    decreases n
  {
    if n == 0 then 0
    else
      var a := assets[n - 1];
      OversizedCount(assets, n - 1) + (if a.uri != "" && TooLarge(a.size) then 1 else 0)
  }

  /** A batch whose every asset has a uri and a size within the limit is
      staged whole, in the order it was picked. */
  lemma AllAcceptedWhenSmall(assets: seq<PickedAsset>, n: nat)
    requires n <= |assets|
    requires forall k :: 0 <= k < n ==> AcceptsAsset(assets[k])
    ensures |AcceptedPhotos(assets, n)| == n
    ensures forall k :: 0 <= k < n ==> AcceptedPhotos(assets, n)[k] == StagedFile(assets[k], k)
  {
    MapWhereAllKept(assets, n, AcceptsAsset, StagedFile);
  }

  /** The limit is exclusive: exactly 8 MiB passes, one byte more does not. */
  lemma SizeLimitBoundary()
    ensures !TooLarge(Some(8 * 1024 * 1024))
    ensures TooLarge(Some(8 * 1024 * 1024 + 1))
    ensures !TooLarge(None) && !TooLarge(Some(0))
  {
  }

  /** The staging list without every photo of the given name, order kept. */
  function WithoutPhotoNamed(photos: seq<ProductImage>, name: string): (r: seq<ProductImage>)
    ensures IsSubsequence(r, photos)
    ensures forall p :: p in r <==> p in photos && PhotoName(p) != name
    ensures forall p :: PhotoName(p) != name ==> multiset(r)[p] == multiset(photos)[p]
  {
    var keep := (p: ProductImage) => PhotoName(p) != name;
    assert forall p :: PhotoName(p) != name ==> multiset(Filter(photos, keep))[p] == multiset(photos)[p] by {
      forall p | PhotoName(p) != name
        ensures multiset(Filter(photos, keep))[p] == multiset(photos)[p]
      {
        FilterCounts(photos, keep, p);
      }
    }
    Filter(photos, keep)
  }

  /** The entries of `catalog` whose key was ticked, in catalog order. */
  function SelectFrom(catalog: seq<PaymentMethod>, keys: seq<string>): (r: seq<PaymentMethod>)
    ensures IsSubsequence(r, catalog)
    ensures forall m :: m in r <==> m in catalog && m.key in keys
    ensures |r| <= |catalog|
  {
    Filter(catalog, (m: PaymentMethod) => m.key in keys)
  }

  /** The keys of a selection are exactly the ticked keys the catalog
      knows, whatever order or repetition the form holds them in. */
  lemma SelectedKeys(catalog: seq<PaymentMethod>, keys: seq<string>, key: string)
    ensures key in PaymentKeysOf(PaymentPairs(SelectFrom(catalog, keys))) <==>
      key in KeysOf(catalog) && key in keys
  {
    var r := SelectFrom(catalog, keys);
    var selected := PaymentKeysOf(PaymentPairs(r));
    if key in selected {
      var i :| 0 <= i < |selected| && selected[i] == key;
      assert r[i] in r;
      var c :| 0 <= c < |catalog| && catalog[c] == r[i];
      assert KeysOf(catalog)[c] == key;
    }
    if key in KeysOf(catalog) && key in keys {
      var c :| 0 <= c < |catalog| && KeysOf(catalog)[c] == key;
      assert catalog[c] in r;
      var i :| 0 <= i < |r| && r[i] == catalog[c];
      assert selected[i] == key;
    }
  }

  /** The payment methods of the draft: the ticked entries of the catalog. */
  function SelectPaymentMethods(keys: seq<string>): (r: seq<PaymentMethod>)
    ensures IsSubsequence(r, GetPaymentOptions())
    ensures forall m :: m in r <==> m in GetPaymentOptions() && m.key in keys
    ensures |r| <= 5
  {
    SelectFrom(GetPaymentOptions(), keys)
  }

  /** The draft written by a valid submission. `price` is the cents value
      the form's price text converts to. */
  function BuildDraft(productId: string, values: FormValues, price: nat,
                      photos: seq<ProductImage>, deleted: seq<string>): (d: Product)
    ensures d.id == productId
    ensures d.name == values.name && d.description == values.description
    ensures d.isNew <==> values.condition == NewCondition
    ensures d.price == price && d.acceptTrade == values.acceptTrade
    ensures d.isActive == Some(true)
    ensures d.paymentMethods.PaymentPairs?
    ensures IsSubsequence(d.paymentMethods.pairs, GetPaymentOptions())
    ensures forall m :: m in d.paymentMethods.pairs <==> m in GetPaymentOptions() && m.key in values.paymentMethods
    ensures d.productImages == photos && d.deletedPhotosOnEdit == Some(deleted)
  {
    Product(
      id := productId,
      name := values.name,
      description := values.description,
      price := price,
      isNew := values.condition == NewCondition,
      isActive := Some(true),
      acceptTrade := values.acceptTrade,
      productImages := photos,
      paymentMethods := PaymentPairs(SelectPaymentMethods(values.paymentMethods)),
      user := None,
      userId := None,
      deletedPhotosOnEdit := Some(deleted))
  }

  /** The form filled from a product loaded for editing. Its price text is
      always accepted by the price rule. */
  function EditFormValues(p: Product): (v: FormValues)
    ensures v.condition == NewCondition <==> p.isNew
    ensures v.condition == UsedCondition <==> !p.isNew
    ensures v.price == PriceFormat.FormatPriceValue(p.price)
    ensures v.paymentMethods == PaymentKeysOf(p.paymentMethods)
    ensures v.name == p.name && v.description == p.description && v.acceptTrade == p.acceptTrade
  {
    FormValues(
      p.name, p.description,
      if p.isNew then NewCondition else UsedCondition,
      PriceFormat.FormatPriceValue(p.price),
      p.acceptTrade,
      PaymentKeysOf(p.paymentMethods))
  }

  /** The form filled back from the draft: a zero price leaves the field empty. */
  function DraftFormValues(p: Product): (v: FormValues)
    ensures v.condition == NewCondition <==> p.isNew
    ensures v.condition == UsedCondition <==> !p.isNew
    ensures v.price == "" <==> p.price == 0
    ensures v.price != "" ==> v.price == PriceFormat.FormatPriceValue(p.price)
    ensures v.paymentMethods == PaymentKeysOf(p.paymentMethods)
    ensures v.name == p.name && v.description == p.description && v.acceptTrade == p.acceptTrade
  {
    FormValues(
      p.name, p.description,
      if p.isNew then NewCondition else UsedCondition,
      if p.price == 0 then "" else PriceFormat.FormatPriceValue(p.price),
      p.acceptTrade,
      PaymentKeysOf(p.paymentMethods))
  }

  /** A form prefilled for editing always passes the price rule, and so
      does a form filled back from a draft, unless its price field is empty. */
  lemma PrefilledPriceAccepted(p: Product)
    ensures AdvertisementSchema.IsPriceText(EditFormValues(p).price)
    ensures DraftFormValues(p).price != "" ==> AdvertisementSchema.IsPriceText(DraftFormValues(p).price)
  {
    AdvertisementSchema.FormattedPriceAccepted(p.price);
  }

  /** The state of the form screen for one product (`productId` "0" when
      creating). */
  class AdvertisementForm {
    const productId: string
    var selectedPhotos: seq<ProductImage>
    var deletedPhotosOnEdit: seq<string>
    var form: FormValues

    constructor (productId: string)
      ensures this.productId == productId
      ensures selectedPhotos == [] && deletedPhotosOnEdit == [] && form == EmptyForm
    {
      this.productId := productId;
      selectedPhotos := [];
      deletedPhotosOnEdit := [];
      form := EmptyForm;
    }

    /** `handleProductPhotoSelect`: `picked` is the picker's batch, `None`
        when the user cancelled. A batch that would take the list past three
        photos is refused whole; otherwise each asset is appended unless it
        has no uri or is over 8 MiB. */
    method HandleProductPhotoSelect(picked: Option<seq<PickedAsset>>) returns (outcome: PickOutcome)
      modifies this`selectedPhotos
      ensures picked.None? ==> outcome == PickCanceled && selectedPhotos == old(selectedPhotos)
      ensures picked.Some? && |picked.value| + |old(selectedPhotos)| > MaxPhotos ==>
        outcome == TooManyPhotos && selectedPhotos == old(selectedPhotos)
      ensures picked.Some? && |picked.value| + |old(selectedPhotos)| <= MaxPhotos ==>
        && selectedPhotos == old(selectedPhotos) + AcceptedPhotos(picked.value, |picked.value|)
        && outcome == PhotosProcessed(OversizedCount(picked.value, |picked.value|))
      ensures |old(selectedPhotos)| <= MaxPhotos ==> |selectedPhotos| <= MaxPhotos
    {
      if picked.None? {
        return PickCanceled;
      }
      var assets := picked.value;
      if |assets| + |selectedPhotos| > MaxPhotos {
        return TooManyPhotos;
      }
      var oversized := StageBatch(assets);
      outcome := PhotosProcessed(oversized);
    }

    /** The per-asset pass of `handleProductPhotoSelect`: an asset with a
        uri is counted when it is over the size limit and appended
        otherwise. */
    method StageBatch(assets: seq<PickedAsset>) returns (oversized: nat)
      modifies this`selectedPhotos
      ensures selectedPhotos == old(selectedPhotos) + AcceptedPhotos(assets, |assets|)
      ensures oversized == OversizedCount(assets, |assets|)
    {
      oversized := 0;
      var i := 0;
      while i < |assets|
        invariant 0 <= i <= |assets|
        invariant selectedPhotos == old(selectedPhotos) + AcceptedPhotos(assets, i)
        invariant oversized == OversizedCount(assets, i)
      {
        var asset := assets[i];
        AcceptedPhotosStep(assets, i);
        if asset.uri != "" {
          if TooLarge(asset.size) {
            oversized := oversized + 1;
          } else {
            var file := StagedFile(asset, i);
            assert (old(selectedPhotos) + AcceptedPhotos(assets, i)) + [file]
                == old(selectedPhotos) + (AcceptedPhotos(assets, i) + [file]);
            selectedPhotos := selectedPhotos + [file];
          }
        }
        i := i + 1;
      }
    }

    /** `handleRemoveSelectedPhoto`: drops every photo with that name and,
        when editing, records a stored photo for deletion on publish. */
    method HandleRemoveSelectedPhoto(photo: ProductImage)
      modifies this`selectedPhotos, this`deletedPhotosOnEdit
      ensures selectedPhotos == WithoutPhotoNamed(old(selectedPhotos), PhotoName(photo))
      ensures productId != "0" && TypeMarker(photo) == "" ==>
        deletedPhotosOnEdit == old(deletedPhotosOnEdit) + [PhotoName(photo)]
      ensures !(productId != "0" && TypeMarker(photo) == "") ==>
        deletedPhotosOnEdit == old(deletedPhotosOnEdit)
    {
      selectedPhotos := WithoutPhotoNamed(selectedPhotos, PhotoName(photo));
      if productId != "0" && TypeMarker(photo) == "" {
        deletedPhotosOnEdit := deletedPhotosOnEdit + [PhotoName(photo)];
      }
    }

    /** `handleGoToPreview` on a form that passed validation: refused with no
        photo staged; otherwise the draft is written to the store. */
    method HandleGoToPreview(values: FormValues, price: nat, store: ProductStore) returns (ok: bool)
      modifies store`productPreview
      ensures ok <==> |selectedPhotos| > 0
      ensures ok ==>
        store.productPreview == BuildDraft(productId, values, price, selectedPhotos, deletedPhotosOnEdit)
      ensures !ok ==> store.productPreview == old(store.productPreview)
    {
      if |selectedPhotos| == 0 {
        return false;
      }
      var draft := BuildDraft(productId, values, price, selectedPhotos, deletedPhotosOnEdit);
      store.SetProductPreview(draft);
      ok := true;
    }

    /** `loadProductPreview`, run when creating: takes the draft's photos and,
        if the draft belongs to an edited product, discards it; otherwise
        fills the form back from it. */
    method LoadProductPreview(store: ProductStore)
      modifies this`selectedPhotos, this`form, store`productPreview
      ensures selectedPhotos == old(store.productPreview).productImages
      ensures old(store.productPreview).id != "0" ==>
        store.productPreview == DefaultPreview && form == old(form)
      ensures old(store.productPreview).id == "0" ==>
        store.productPreview == old(store.productPreview) && form == DraftFormValues(old(store.productPreview))
    {
      var preview := store.productPreview;
      selectedPhotos := preview.productImages;
      if preview.id != "0" {
        store.SetProductPreview(DefaultPreview);
      } else {
        form := DraftFormValues(preview);
      }
    }

    /** `fetchProductToEdit`: loads the product and fills the form and the
        photo list from it; a rejected request changes nothing. The reply's
        images are images the backend stores (`ProductImagesDTO`); each
        becomes an entry whose type is empty (its `PhotoView`). */
    method FetchProductToEdit(reply: Result<Product, ApiError>) returns (request: Request)
      requires reply.Success? ==>
        forall k :: 0 <= k < |reply.value.productImages| ==> reply.value.productImages[k].ServerImage?
      modifies this`selectedPhotos, this`form
      ensures request == GetProduct(productId)
      ensures reply.Success? ==>
        selectedPhotos == reply.value.productImages && form == EditFormValues(reply.value)
      ensures reply.Success? ==>
        forall k :: 0 <= k < |selectedPhotos| ==> TypeMarker(selectedPhotos[k]) == "" && WellFormedImage(selectedPhotos[k])
      ensures reply.Failure? ==> selectedPhotos == old(selectedPhotos) && form == old(form)
    {
      request := GetProduct(productId);
      if reply.Success? {
        var data := reply.value;
        selectedPhotos := data.productImages;
        form := EditFormValues(data);
      }
    }
  }
}
