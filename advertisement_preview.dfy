/** The preview screen (src/screens/AdvertisementPreview.tsx): the slide
    list built from the draft, and publication of the draft as a sequence
    of backend requests that stops at the first rejection. The backend is a
    parameter mapping each request to its reply. */
module AdvertisementPreview {
  import opened Wrappers
  import opened Strings
  import opened ProductDto
  import opened Api
  import opened PaymentOptions
  import opened ProductContext
  import Seqs
  import CreateAdvertisement

  /** The metadata sent to create or update the product. */
  function MetadataBody(d: Product): (body: ProductBody)
    ensures body.paymentMethods == PaymentKeysOf(d.paymentMethods)
    ensures body.isNew == d.isNew && body.price == d.price
    ensures body.name == d.name && body.description == d.description && body.acceptTrade == d.acceptTrade
  {
    ProductBody(d.name, d.description, d.isNew, d.price, d.acceptTrade, PaymentKeysOf(d.paymentMethods))
  }

  /** The files still to upload: the images with a non-empty type, in order. */
  function NewPhotos(images: seq<ProductImage>): (files: seq<PhotoFile>)
    ensures |files| <= |images|
    decreases |images|
  {
    if images == [] then []
    else
      var last := images[|images| - 1];
      var front := images[..|images| - 1];
      NewPhotos(front) + (if TypeMarker(last) != "" then [last.file] else [])
  }

  /** Nothing is uploaded exactly when every image has an empty type. */
  lemma {:induction false} NewPhotosEmpty(images: seq<ProductImage>)
    ensures NewPhotos(images) == [] <==> forall k :: 0 <= k < |images| ==> TypeMarker(images[k]) == ""
    decreases |images|
  {
    if images != [] {
      var front := images[..|images| - 1];
      var last := images[|images| - 1];
      if TypeMarker(last) != "" {
        assert NewPhotos(images) == NewPhotos(front) + [last.file];
      } else {
        NewPhotosEmpty(front);
        assert NewPhotos(images) == NewPhotos(front);
        assert forall k :: 0 <= k < |front| ==> front[k] == images[k];
      }
    }
  }

  /** A file is uploaded exactly when it is staged in the draft with a
      non-empty type. */
  lemma {:induction false} NewPhotosMembers(images: seq<ProductImage>, f: PhotoFile)
    ensures f in NewPhotos(images) <==> StagedPhoto(f) in images && f.mimeType != ""
    decreases |images|
  {
    if images != [] {
      var front := images[..|images| - 1];
      var last := images[|images| - 1];
      var tail := if TypeMarker(last) != "" then [last.file] else [];
      NewPhotosMembers(front, f);
      assert images == front + [last];
      assert StagedPhoto(f) in images <==> StagedPhoto(f) in front || StagedPhoto(f) == last;
      assert NewPhotos(images) == NewPhotos(front) + tail;
      assert f in NewPhotos(images) <==> f in NewPhotos(front) || f in tail;
      assert f in tail <==> StagedPhoto(f) == last && f.mimeType != "";
    }
  }

  /** Whether an image is appended to the upload: its type is non-empty. */
  predicate IsNewImage(img: ProductImage)
  {
    TypeMarker(img) != ""
  }

  /** File k is the file of image k, for every k. */
  predicate FilesOfImages(files: seq<PhotoFile>, kept: seq<ProductImage>)
  {
    |files| == |kept| && forall k :: 0 <= k < |kept| ==> StagedPhoto(files[k]) == kept[k]
  }

  lemma FilesOfImagesSnoc(files: seq<PhotoFile>, kept: seq<ProductImage>, f: PhotoFile)
    requires FilesOfImages(files, kept)
    ensures FilesOfImages(files + [f], kept + [StagedPhoto(f)])
  {
  }

  /** The upload carries exactly the draft's images with a non-empty type, in
      draft order and as often as each occurs: file k is the k-th such image. */
  lemma {:induction false} NewPhotosInDraftOrder(images: seq<ProductImage>)
    ensures FilesOfImages(NewPhotos(images), Seqs.Filter(images, IsNewImage))
    decreases |images|
  {
    if images != [] {
      var front := images[..|images| - 1];
      var last := images[|images| - 1];
      var files := NewPhotos(front);
      var kept := Seqs.Filter(front, IsNewImage);
      NewPhotosInDraftOrder(front);
      Seqs.FilterDropLast(images, IsNewImage);
      if IsNewImage(last) {
        FilesOfImagesSnoc(files, kept, last.file);
        assert StagedPhoto(last.file) == last;
        assert NewPhotos(images) == files + [last.file];
      } else {
        assert NewPhotos(images) == files;
      }
    }
  }

  /** How often a file is uploaded: as often as it is staged in the draft
      when its type is non-empty, and never otherwise. */
  lemma {:induction false} NewPhotosCount(images: seq<ProductImage>, f: PhotoFile)
    ensures multiset(NewPhotos(images))[f] == if f.mimeType != "" then multiset(images)[StagedPhoto(f)] else 0
    decreases |images|
  {
    if images != [] {
      var front := images[..|images| - 1];
      var last := images[|images| - 1];
      var tail := if TypeMarker(last) != "" then [last.file] else [];
      var here := if f.mimeType != "" && last == StagedPhoto(f) then 1 else 0;
      calc {
        multiset(NewPhotos(images))[f];
        multiset(NewPhotos(front) + tail)[f];
        multiset(NewPhotos(front))[f] + multiset(tail)[f];
      == { NewPhotosCount(front, f); }
        (if f.mimeType != "" then multiset(front)[StagedPhoto(f)] else 0) + here;
      == { assert images == front + [last]; }
        if f.mimeType != "" then multiset(images)[StagedPhoto(f)] else 0;
      }
    }
  }

  /** The product id the upload is attached to: the id the backend gave a
      new product, or the edited product's own. */
  function ResolvedId(d: Product, createdId: string): (id: string)
    ensures d.id != "0" ==> id == d.id
    ensures d.id == "0" ==> id == createdId
  {
    if d.id == "0" then createdId else d.id
  }

  function FirstRequest(d: Product): (r: Request)
    ensures r.CreateProduct? <==> d.id == "0"
    ensures r.UpdateProduct? <==> d.id != "0"
    ensures r.UpdateProduct? ==> r.productId == d.id
  {
    if d.id == "0" then CreateProduct(MetadataBody(d)) else UpdateProduct(d.id, MetadataBody(d))
  }

  /** Whether publication deletes stored images: only an update does, and
      only when the list of removed stored photos is present and non-empty. */
  function HasDeletions(d: Product): (has: bool)
    ensures has ==> FirstRequest(d).UpdateProduct?
    ensures FirstRequest(d).UpdateProduct? ==>
      (has <==> d.deletedPhotosOnEdit.Some? && d.deletedPhotosOnEdit.value != [])
  {
    d.id != "0" && d.deletedPhotosOnEdit.Some? && |d.deletedPhotosOnEdit.value| > 0
  }

  /** Every request publication issues when the backend accepts them all,
      in order; `createdId` is the id the creation reply carries. */
  function PublishRequests(d: Product, createdId: string): (plan: seq<Request>)
    ensures 1 <= |plan| <= 3 && plan[0] == FirstRequest(d)
  {
    var deletion := if HasDeletions(d) then [DeleteImages(d.deletedPhotosOnEdit.value)] else [];
    var files := NewPhotos(d.productImages);
    var upload := if files != [] then [UploadImages(files, ResolvedId(d, createdId))] else [];
    [FirstRequest(d)] + deletion + upload
  }

  /** The shape of a publication: the metadata first; image deletions only
      when editing with stored photos removed, and then exactly those; the
      upload last, exactly when a file is new, carrying all new files under
      the resolved product id. */
  lemma PublishPlanShape(d: Product, createdId: string)
    ensures var plan := PublishRequests(d, createdId);
      && (forall k :: 1 <= k < |plan| ==> plan[k].DeleteImages? || plan[k].UploadImages?)
      && (d.id == "0" ==> forall k :: 1 <= k < |plan| ==> plan[k].UploadImages?)
      && ((exists k :: 0 <= k < |plan| && plan[k].DeleteImages?) <==> HasDeletions(d))
      && (forall k :: 0 <= k < |plan| && plan[k].DeleteImages? ==>
            plan[k].productImagesIds == d.deletedPhotosOnEdit.value)
      && (plan[|plan| - 1].UploadImages? <==> NewPhotos(d.productImages) != [])
      && (forall k :: 0 <= k < |plan| && plan[k].UploadImages? ==>
            k == |plan| - 1 && plan[k] == UploadImages(NewPhotos(d.productImages), ResolvedId(d, createdId)))
  {
    var plan := PublishRequests(d, createdId);
    var first := FirstRequest(d);
    var files := NewPhotos(d.productImages);
    var upload := UploadImages(files, ResolvedId(d, createdId));
    if HasDeletions(d) {
      var deletion := DeleteImages(d.deletedPhotosOnEdit.value);
      if files != [] {
        assert plan == [first, deletion, upload];
        assert plan[1].DeleteImages?;
      } else {
        assert plan == [first, deletion];
        assert plan[1].DeleteImages?;
      }
    } else {
      if files != [] {
        assert plan == [first, upload];
      } else {
        assert plan == [first];
      }
    }
  }

  /** The id carried by the reply to the creation request, if accepted; a
      new product's upload is attached to it. */
  function CreatedId(d: Product, backend: Request -> Reply): (id: string)
    ensures d.id == "0" && backend(CreateProduct(MetadataBody(d))).Accepted? ==>
      ResolvedId(d, id) == backend(CreateProduct(MetadataBody(d))).id
    ensures backend(FirstRequest(d)).Rejected? ==> id == ""
  {
    var reply := backend(FirstRequest(d));
    if reply.Accepted? then reply.id else ""
  }

  datatype PublishOutcome =
    | PublishFailed(error: ApiError)
    /** Every request accepted, but the product id is still "0". */
    | NotCreated
    | Published(productId: string, edited: bool)

  /** Slide `k` of the preview carousel: the image's uri as path, and the
      uri followed by `k` as id. */
  function Slides(baseUrl: string, images: seq<ProductImage>): (slides: seq<ImageDescriptor>)
    ensures |slides| == |images|
    ensures forall k :: 0 <= k < |images| ==>
      slides[k].path == PhotoView(baseUrl, images[k]).uri
      && slides[k].id == slides[k].path + NatToString(k)
  {
    seq(|images|, k requires 0 <= k < |images| =>
      var uri := PhotoView(baseUrl, images[k]).uri;
      ImageDescriptor(uri + NatToString(k), uri))
  }

  /** With at most ten images every slide id ends in one digit, so ids are
      distinct even when two images share a uri. */
  lemma SlideIdsDistinct(baseUrl: string, images: seq<ProductImage>, j: nat, k: nat)
    requires |images| <= 10 && j < k < |images|
    ensures Slides(baseUrl, images)[j].id != Slides(baseUrl, images)[k].id
  {
    var a := Slides(baseUrl, images)[j].id;
    var b := Slides(baseUrl, images)[k].id;
    var sj := NatToString(j);
    var sk := NatToString(k);
    ParseNatToString(j);
    ParseNatToString(k);
    assert |sj| == 1 && |sk| == 1;
    assert sj == [sj[0]] && sk == [sk[0]];
    assert a[|a| - 1] == sj[0] && b[|b| - 1] == sk[0];
  }

  /** The body published for a draft written by the form carries the form's
      values, and exactly the ticked catalog keys. */
  lemma DraftBodyCarriesForm(productId: string, values: CreateAdvertisement.FormValues, price: nat,
                              photos: seq<ProductImage>, deleted: seq<string>, key: string)
    ensures var body := MetadataBody(CreateAdvertisement.BuildDraft(productId, values, price, photos, deleted));
      && body.name == values.name && body.description == values.description
      && (body.isNew <==> values.condition == CreateAdvertisement.NewCondition)
      && body.price == price && body.acceptTrade == values.acceptTrade
      && (key in body.paymentMethods <==> key in KeysOf(GetPaymentOptions()) && key in values.paymentMethods)
  {
    CreateAdvertisement.SelectedKeys(GetPaymentOptions(), values.paymentMethods, key);
  }

  /** One more image of a prefix appends its file exactly when its type is
      non-empty. */
  lemma NewPhotosPrefixStep(images: seq<ProductImage>, i: nat)
    requires i < |images|
    ensures NewPhotos(images[..i + 1]) ==
      NewPhotos(images[..i]) + (if TypeMarker(images[i]) != "" then [images[i].file] else [])
  {
    var prefix := images[..i + 1];
    assert prefix[..|prefix| - 1] == images[..i];
  }

  /** The multipart form of the upload: every image with a non-empty type is
      appended, and the flag records whether any was. */
  method CollectNewPhotos(images: seq<ProductImage>) returns (files: seq<PhotoFile>, haveNewPhotos: bool)
    ensures files == NewPhotos(images)
    ensures haveNewPhotos <==> exists k :: 0 <= k < |images| && TypeMarker(images[k]) != ""
  {
    files := [];
    haveNewPhotos := false;
    var i := 0;
    while i < |images|
      invariant 0 <= i <= |images|
      invariant files == NewPhotos(images[..i])
      invariant haveNewPhotos <==> files != []
    {
      var img := images[i];
      NewPhotosPrefixStep(images, i);
      if TypeMarker(img) != "" {
        files := files + [img.file];
        haveNewPhotos := true;
      }
      i := i + 1;
    }
    assert images[..i] == images;
    NewPhotosEmpty(images);
  }

  class PreviewScreen {
    var photosForSlide: seq<ImageDescriptor>

    constructor ()
      ensures photosForSlide == []
    {
      photosForSlide := [];
    }

    /** The focus effect: rebuilds the carousel from the draft's images. */
    method OnFocus(store: ProductStore, baseUrl: string)
      modifies this`photosForSlide
      ensures photosForSlide == Slides(baseUrl, store.productPreview.productImages)
    {
      photosForSlide := Slides(baseUrl, store.productPreview.productImages);
    }

    /** `handlePublishProduct`: sends the draft's metadata (create or update),
        then the pending deletions of an edit, then the new files; the first
        rejection ends publication. Only a publication that resolved a real
        product id resets the draft. */
    method HandlePublishProduct(store: ProductStore, backend: Request -> Reply)
      returns (issued: seq<Request>, outcome: PublishOutcome)
      modifies store`productPreview
      ensures var plan := PublishRequests(old(store.productPreview), CreatedId(old(store.productPreview), backend));
        && 1 <= |issued| <= |plan| && issued == plan[..|issued|]
        && (forall k :: 0 <= k < |issued| - 1 ==> backend(issued[k]).Accepted?)
        && (outcome.PublishFailed? <==> backend(issued[|issued| - 1]).Rejected?)
        && (outcome.PublishFailed? ==> outcome.error == backend(issued[|issued| - 1]).error)
        && (!outcome.PublishFailed? ==> issued == plan)
      ensures var d := old(store.productPreview);
        && (outcome.Published? <==> !outcome.PublishFailed? && ResolvedId(d, CreatedId(d, backend)) != "0")
        && (outcome.Published? ==> outcome.productId == ResolvedId(d, CreatedId(d, backend)))
        && (outcome.Published? ==> (outcome.edited <==> d.id != "0"))
      ensures outcome.Published? ==> store.productPreview == DefaultPreview
      ensures !outcome.Published? ==> store.productPreview == old(store.productPreview)
    {
      var d := store.productPreview;
      ghost var createdId := CreatedId(d, backend);
      ghost var plan := PublishRequests(d, createdId);
      var files, haveNewPhotos := CollectNewPhotos(d.productImages);
      NewPhotosEmpty(d.productImages);
      assert haveNewPhotos <==> files != [];

      var first := FirstRequest(d);
      issued := [first];
      var reply := backend(first);
      if reply.Rejected? {
        assert issued == plan[..1];
        return issued, PublishFailed(reply.error);
      }
      var productId := if d.id == "0" then reply.id else d.id;
      assert productId == ResolvedId(d, createdId);
      if HasDeletions(d) {
        var deletion := DeleteImages(d.deletedPhotosOnEdit.value);
        issued := issued + [deletion];
        reply := backend(deletion);
        if reply.Rejected? {
          assert issued == plan[..2];
          return issued, PublishFailed(reply.error);
        }
      }
      assert issued == plan[..|issued|];
      if haveNewPhotos {
        var upload := UploadImages(files, productId);
        issued := issued + [upload];
        reply := backend(upload);
        if reply.Rejected? {
          assert issued == plan;
          return issued, PublishFailed(reply.error);
        }
      }
      assert issued == plan;
      if productId == "0" {
        outcome := NotCreated;
      } else {
        outcome := Published(productId, d.id != "0");
        store.SetProductPreview(DefaultPreview);
      }
    }
  }
}
