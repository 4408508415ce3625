# Marketplace listing rules — a Dafny model

This project models the listing rules of a React Native marketplace client,
where users sell second-hand products. The rules sit inside its screens and
are modelled here as Dafny datatypes, functions, lemmas and classes:

- **Product record** (`ProductDto`). `is_active` is an `Option<bool>`. An
  image is either a `ServerImage` the backend stores or a `StagedPhoto` still
  on the device. Every photo the form stages carries a non-empty type
  (`WellFormedImage`, proved of each staged batch). The payment methods are
  either bare keys or `{key, name}` pairs.
- **Price display** (`PriceFormat`). `formatPriceValue` turns integer cents
  into `"<units>,<cents>"`. The locale rendering is taken to be the plain,
  ungrouped digit string.
- **Payment catalog** (`PaymentOptions`). The constant five-entry catalog.
- **Product store** (`ProductContext.ProductStore`). A class holding:
  - the catalog and its filtered view;
  - the user's own listings;
  - the detail record with its slide images;
  - the draft being composed.

  Each fetch takes the backend's reply, or its rejection, as a parameter. It
  replaces only the fields that fetch owns.
- **Advertisement form** (`CreateAdvertisement`, `AdvertisementSchema`):
  - **Price pattern.** The price field's regular expression is read literally
    as a grammar, then recognised by a left-to-right scan, and the two are
    proved equivalent.
  - **Photo staging.** At most three photos, and 8 MiB per photo.
  - **Photo removal.** Removing a stored photo while editing records it for
    deletion on publish.
  - **Submission.** The zero-photo guard and the draft built from the form.
  - **Prefilling.** Filling the form back from a draft or from a product
    loaded for editing.
- **Publication** (`AdvertisementPreview`). `PublishRequests` is the plan of
  backend requests for a draft. `PreviewScreen.HandlePublishProduct` issues
  them one by one and stops at the first rejection. It resets the draft only
  when a real product id was resolved.
- **Filters**:
  - `FilterModal`: the exclusive new/used buttons, the query parameters of an
    applied filter, and the reset;
  - `Home`: the case-insensitive search, the case-sensitive name filter, and
    the counter of active listings;
  - `MyAdvertisement`: the five presets over the owner's listings.
- **Product card** (`ProductInfo`):
  - the payment labels;
  - the one-row/two-row layout threshold and the price text of each layout;
  - the condition badge and the trade label;
  - the deactivated banner.

**Helper modules:**
- `Wrappers`: `Option` and `Result`.
- `Strings`: the JavaScript string operations used, restricted to the inputs
  the core gives them:
  - decimal rendering of a non-negative integer;
  - `padStart` and negative-index `slice`;
  - ASCII lower-casing and `includes`.
- `Seqs`: `Array.prototype.filter` as `Filter`, the sub-sequence relation, and
  `MapWhere`, the ordered "append when accepted" pass.

**Boundaries.** Backend requests are abstract `Api.Request` values, and each
reply is a parameter. The image picker's batch and the sizes the file system
reports are parameters too. Toasts and navigation are not modelled.

## Model

| member | source | states |
|---|---|---|
| PriceFormat.InsertComma | src/utils/formatPriceValue.ts:3 | ',' sits before the last two characters. Both sides are digits, and deleting the ',' gives back the input digits. |
| PriceFormat.PaddedDigits | src/utils/formatPriceValue.ts:2 | At least three digits. Everything but the last two is "0" exactly when the price is below 100. From 100 on, the result is the plain decimal digits. |
| PriceFormat.FormatPriceValue | src/utils/formatPriceValue.ts:1-4 | At least four characters, with ',' third from the end: exactly two characters follow the comma and at least one precedes it. |
| PriceFormat.FormatPriceDigits | src/utils/formatPriceValue.ts:2-3 | Both sides of the comma are digit strings. |
| PriceFormat.FormatPriceConcat | src/utils/formatPriceValue.ts:2-3 | The two sides of the comma, joined, are the zero-padded digits of the price. |
| PriceFormat.FormatSmallPrice | src/utils/formatPriceValue.ts:2-3 | A price below 100 shows "0," and the two digits, with a zero before a single digit. |
| PriceFormat.FormatLargePrice | src/utils/formatPriceValue.ts:2-3 | From 100 up, the two sides joined are the plain digits of the price, and the text does not start with '0'. |
| PriceFormat.FormatPriceUnits | src/utils/formatPriceValue.ts:2-3 | The part before the comma is "0" if and only if the price is below 100. |
| PriceFormat.PaddedDigitsParse | src/utils/formatPriceValue.ts:2 | Reading the padded digits as a number gives back the price. |
| PriceFormat.FormatPriceRoundTrip | src/utils/formatPriceValue.ts:2-3 | With the comma deleted, the text is all digits, and parsing it gives back the price. |
| PriceFormat.FormatPriceSmallExamples | src/utils/formatPriceValue.ts:2-3 | 0 shows "0,00" and 5 shows "0,05". |
| PriceFormat.FormatPriceLargeExample | src/utils/formatPriceValue.ts:2-3 | 123456 shows "1234,56". |
| Strings.PadStart | src/utils/formatPriceValue.ts:2 | The result has length the larger of width and the length of s, ends with s, and is filled with the pad character before it. |
| Strings.DropLast | src/utils/formatPriceValue.ts:3 | For n ≥ 1 (the source uses 2), `slice(0, -n)` is the prefix that omits the last n characters, or "" when s is shorter. |
| Strings.TakeLast | src/utils/formatPriceValue.ts:3 | For n ≥ 1 (the source uses 2), `slice(-n)` is the suffix of length n, or all of s when s is shorter. |
| PaymentOptions.GetPaymentOptions | src/utils/findPaymentOptions.ts:3-12 | Exactly five entries. Keys run boleto, pix, cash, card, deposit. Keys are pairwise distinct and every name is non-empty. Being a constant, every call returns the same list. |
| ProductDto.PhotoView | src/screens/CreateAdvertisement.tsx:140-148 | A stored image is viewed as `{name: id, uri: base + "/images/" + path, type: ''}`. The view keeps the image's name and type marker. For a well-formed image, the type is '' exactly when the image is a stored one. |
| ProductDto.PaymentKeysOf | src/screens/CreateAdvertisement.tsx:151-155 | The keys of `{key, name}` pairs, one per pair and in order. |
| Api.Path | src/contexts/ProductContext.tsx:60-66 | A listing goes to "/users/products" exactly when the user view is asked for, and to "/products" otherwise. |
| ProductContext.DefaultPreviewIsBlank | src/contexts/ProductContext.tsx:37-46 | The default draft has id "0", empty name and description, is_new true, price 0, accept_trade false, and no payment methods or images. |
| ProductContext.ProductStore.constructor | src/contexts/ProductContext.tsx:49-55 | Loading is true, every list is empty, there is no detail record, and the draft is the default. |
| ProductContext.ProductStore.FetchProducts | src/contexts/ProductContext.tsx:57-81 | Request and loading flag: the request is the user or catalog listing with the given params, and loading is false afterwards. The user view replaces only userProducts. The catalog view sets products and filteredProducts to the reply and leaves userProducts. A rejection is returned and changes no list. |
| ProductContext.ProductStore.FetchProduct | src/contexts/ProductContext.tsx:83-94 | GET "/products/" + id; on success the detail record is the reply and the slides are its images; a rejection changes nothing; other fields unchanged |
| ProductContext.ProductStore.SetFilteredProducts | src/contexts/ProductContext.tsx:51 | The filtered view becomes the given list. |
| ProductContext.ProductStore.SetProductPreview | src/contexts/ProductContext.tsx:54 | The draft becomes the given product. |
| Home.SearchByName | src/screens/Home.tsx:71 | An order-preserving sub-list of the full catalog. It holds exactly the products whose lower-cased name contains the lower-cased input; an empty input returns the whole catalog. |
| Home.ExactNameFilter | src/screens/Home.tsx:65 | An order-preserving sub-list holding exactly the products whose name contains the text as written. |
| Home.ExactNameWithinSearch | src/screens/Home.tsx:64-73 | The case-sensitive filter's result is an order-preserving sub-list of the search result for the same text. |
| Home.HomeScreen.constructor | src/screens/Home.tsx:23-25 | The name is empty, the dialog is closed, and the counter is 0. |
| Home.HomeScreen.HandleSearchInput | src/screens/Home.tsx:69-73 | Stores the input as productName. The filtered view becomes the search over the full catalog, whatever was shown before. |
| Home.HomeScreen.FilterProducts | src/screens/Home.tsx:64-67 | The filtered view becomes the case-sensitive name filter of the catalog by the stored name. |
| Home.HomeScreen.CountNumberOfActiveUserProducts | src/screens/Home.tsx:57-62 | The stored count is the number of the user's listings with is_active true, and is at most their number. |
| Home.CountActiveListings | src/screens/Home.tsx:58-59 | The loop's count equals the number of listings with is_active true. |
| Home.ActiveCountIsFull | src/screens/Home.tsx:57-61 | The count equals the number of listings if and only if every listing is active. |
| MyAdvertisement.ApplyFilter | src/screens/MyAdvertisement.tsx:41-53 | An order-preserving sub-list of the input. "actives" keeps exactly is_active true; "activesAndNew" keeps active and new; "activeAndUsed" keeps active and used; "deactivate" keeps exactly is_active false. "all" or any other key returns the input unchanged. |
| MyAdvertisement.InitialFilterIsAPreset | src/screens/MyAdvertisement.tsx:23-31 | The initial filter "actives" is one of the five buttons, and the button keys are distinct. |
| MyAdvertisement.UnsetActivityIsHidden | src/screens/MyAdvertisement.tsx:43-50 | A listing with no is_active appears under neither "actives" nor "deactivate". |
| MyAdvertisement.ActivesSplitByCondition | src/screens/MyAdvertisement.tsx:43-48 | "activesAndNew" and "activeAndUsed" are disjoint, their union is "actives", and their sizes add up to its size. |
| MyAdvertisement.ActivesAndNewExample | src/screens/MyAdvertisement.tsx:45-46 | Given [active/new, active/used, inactive/new], "activesAndNew" shows only the first. |
| FilterModal.ConditionAfter | src/components/FilterModal.tsx:39-51 | Pressing a selected button deselects it and leaves the other flag alone. Pressing an unselected one selects it and clears the other. Any other value changes nothing. At most one flag set before means at most one after. |
| FilterModal.ApplyParams | src/components/FilterModal.tsx:82-91 | is_new is omitted exactly when neither condition is selected. Otherwise it is the "new" flag, so "used" alone sends false. Trade, payments and query pass through. |
| FilterModal.ClearedApplyIsNotReset | src/components/FilterModal.tsx:53-95 | Applying with nothing selected still sends trade, payments and query, so it differs from the reset's empty parameters. It leaves is_new out just as the reset does. |
| FilterModal.FilterModalState.constructor | src/components/FilterModal.tsx:28-31 | Both conditions and the trade switch are off, and no payment method is selected. |
| FilterModal.FilterModalState.HandleConditionFilter | src/components/FilterModal.tsx:39-51 | The new flags are `ConditionAfter` of the old ones, and the at-most-one-selected invariant is preserved. |
| FilterModal.FilterModalState.HandleResetFilter | src/components/FilterModal.tsx:53-77 | Clears both conditions, the trade switch, the payments and the query, then lists the catalog with empty parameters. The dialog closes only on success, and a rejection leaves the store's lists unchanged. The detail record and its slides are unchanged, and the store is no longer loading. |
| FilterModal.FilterModalState.HandleApplyFilter | src/components/FilterModal.tsx:79-108 | Lists the catalog with `ApplyParams` of the dialog state and the home query. The dialog closes only on success, and a rejection leaves the store's lists unchanged. The detail record and its slides are unchanged, and the store is no longer loading. |
| CreateAdvertisement.FileExtension | src/screens/CreateAdvertisement.tsx:221 | The suffix after the last '.' (all of the uri if it has none). It holds no '.', and is preceded by '.' whenever it is shorter than the uri. |
| CreateAdvertisement.StagedType | src/screens/CreateAdvertisement.tsx:226 | The media type, then '/', then the file extension of the uri; never empty. |
| CreateAdvertisement.StagedFile | src/screens/CreateAdvertisement.tsx:223-227 | A staged photo with the asset's uri and a non-empty type. |
| CreateAdvertisement.AcceptedPhotos | src/screens/CreateAdvertisement.tsx:207-231 | No more photos than assets considered. |
| CreateAdvertisement.AcceptedPhotosStep | src/screens/CreateAdvertisement.tsx:207-231 | Asset by asset: one more asset appends its staged file exactly when it has a uri and passes the 8 MiB rule, and otherwise leaves the photos unchanged. |
| CreateAdvertisement.AcceptedPhotosAreStaged | src/screens/CreateAdvertisement.tsx:207-231 | Every staged photo is the staged file of an accepted asset at some earlier batch position. It is therefore a well-formed staged photo with a non-empty type. |
| CreateAdvertisement.AllAcceptedWhenSmall | src/screens/CreateAdvertisement.tsx:207-231 | A batch whose every asset has a uri and fits the size limit is staged whole, in picking order. Photo k is the staged file of asset k. |
| CreateAdvertisement.OversizedCount | src/screens/CreateAdvertisement.tsx:213-219 | The number of refused assets is at most the number considered. |
| CreateAdvertisement.SizeLimitBoundary | src/screens/CreateAdvertisement.tsx:213 | Exactly 8 MiB is accepted and one byte more is refused. An absent or zero size is never refused. |
| CreateAdvertisement.WithoutPhotoNamed | src/screens/CreateAdvertisement.tsx:249 | An order-preserving sub-list with every photo of that name removed. Any other photo keeps its multiplicity. |
| CreateAdvertisement.SelectFrom | src/screens/CreateAdvertisement.tsx:270 | The catalog entries whose key was ticked, as an order-preserving sub-list of the catalog. |
| CreateAdvertisement.SelectedKeys | src/screens/CreateAdvertisement.tsx:270 | A key is in the selection exactly when the catalog knows it and it was ticked. |
| CreateAdvertisement.SelectPaymentMethods | src/screens/CreateAdvertisement.tsx:270 | The ticked entries of the five-entry catalog, in catalog order, at most five. |
| CreateAdvertisement.BuildDraft | src/screens/CreateAdvertisement.tsx:272-283 | id is the productId. is_new holds exactly when the radio reads "Produto novo". is_active is true. The payments are the ticked catalog entries in catalog order. The photos and the deletion list are the screen's; name, description, price and trade are the form's. |
| CreateAdvertisement.EditFormValues | src/screens/CreateAdvertisement.tsx:157-166 | The radio reads "Produto novo" exactly when is_new holds, and "Produto usado" otherwise. The price text is `formatPriceValue` of the price. The payments are the product's keys, and the other fields are copied. |
| CreateAdvertisement.DraftFormValues | src/screens/CreateAdvertisement.tsx:119-128 | The radio reads "Produto novo" exactly when is_new holds, and "Produto usado" exactly when it does not. The price text is empty exactly when the price is 0, and is `formatPriceValue` otherwise. The payments are the draft's keys; name, description and trade are copied. |
| CreateAdvertisement.PrefilledPriceAccepted | src/screens/CreateAdvertisement.tsx:157-166 | The price text the form is prefilled with always passes the price pattern, both when editing and when filled back from a draft, unless it is empty. |
| CreateAdvertisement.AdvertisementForm.constructor | src/screens/CreateAdvertisement.tsx:52-105 | No photo is staged, nothing is marked for deletion, and the form holds its default values. |
| CreateAdvertisement.AdvertisementForm.HandleProductPhotoSelect | src/screens/CreateAdvertisement.tsx:182-246 | A cancelled pick changes nothing. A batch that would pass three photos is refused whole and the list is unchanged. Otherwise the accepted assets are appended in order and the oversized ones are counted. At most three photos stay staged. |
| CreateAdvertisement.AdvertisementForm.StageBatch | src/screens/CreateAdvertisement.tsx:207-231 | The loop appends exactly `AcceptedPhotos` of the batch to the old list, and counts the assets refused for size. |
| CreateAdvertisement.AdvertisementForm.HandleRemoveSelectedPhoto | src/screens/CreateAdvertisement.tsx:248-255 | Drops every photo of that name and keeps the others in order. The name is appended to the deletion list exactly when editing (id ≠ "0") and the photo's type is ''; otherwise that list is unchanged. |
| CreateAdvertisement.AdvertisementForm.HandleGoToPreview | src/screens/CreateAdvertisement.tsx:258-299 | Succeeds exactly when a photo is staged, and then writes `BuildDraft` to the store. With no photo it returns false and leaves the draft untouched. |
| CreateAdvertisement.AdvertisementForm.LoadProductPreview | src/screens/CreateAdvertisement.tsx:107-133 | Takes the draft's photos. A draft of an edited product (id ≠ "0") is reset to the default and the form is kept. Otherwise the form is filled back from the draft. |
| CreateAdvertisement.AdvertisementForm.FetchProductToEdit | src/screens/CreateAdvertisement.tsx:135-180 | GET "/products/" + id. The reply's images are stored images (`ProductImagesDTO`). On success the photos are those images, each well formed with type '', and the form is `EditFormValues` of the product. A rejection changes neither. |
| CreateAdvertisement.TooLarge | src/screens/CreateAdvertisement.tsx:213 | A file is too large exactly when its size is reported, non-zero, and size / 1024 / 1024 exceeds 8. |
| CreateAdvertisement.AcceptsAsset | src/screens/CreateAdvertisement.tsx:210-219 | An asset is staged exactly when it has a uri and its size is unknown or at most 8 MiB. |
| CreateAdvertisement.StagedName | src/screens/CreateAdvertisement.tsx:224 | The name is "image_", the batch index in decimal, "_", then the asset id; its length is the sum of those parts. |
| CreateAdvertisement.StagedNameInjective | src/screens/CreateAdvertisement.tsx:224 | Two staged names are equal only for the same batch index and the same asset id. |
| AdvertisementSchema.MatchesPricePattern | src/screens/CreateAdvertisement.tsx:85 | The reference: a text matches when it splits into blanks, an integer part and an optional fraction part, each read literally from the regular expression, anchored at both ends. |
| AdvertisementSchema.MatchHoldsDigit | src/screens/CreateAdvertisement.tsx:85 | Every match holds a digit right after its leading blanks, since the integer part is mandatory. |
| AdvertisementSchema.IsPriceText | src/screens/CreateAdvertisement.tsx:80-89 | The recogniser accepts a text exactly when it matches the regular expression read as a grammar. |
| AdvertisementSchema.ScanTriplesMeaning | src/screens/CreateAdvertisement.tsx:85 | The scan after the first '.' accepts exactly the texts that, with the pending digits restored, are dots and complete digit triples (the pattern's repeated group). |
| AdvertisementSchema.LeadingDigitsAsPadding | src/screens/CreateAdvertisement.tsx:85 | Up to two digits followed by dots and digit triples are matched exactly by a text the triple scan accepts with 0, 1 or 2 pending digits. |
| AdvertisementSchema.IntegerTextAgrees | src/screens/CreateAdvertisement.tsx:85 | The integer-part scan accepts exactly the pattern's integer part: "0", or a non-zero digit, up to two digits, then dots and digit triples. |
| AdvertisementSchema.SplitIsUnique | src/screens/CreateAdvertisement.tsx:85 | Any match splits at the end of the leading blanks and at the first ',' after them. |
| AdvertisementSchema.PriceTextSound | src/screens/CreateAdvertisement.tsx:85 | A text the recogniser accepts matches the pattern. |
| AdvertisementSchema.PriceTextComplete | src/screens/CreateAdvertisement.tsx:85 | A text matching the pattern is accepted by the recogniser. |
| AdvertisementSchema.PriceTextAgrees | src/screens/CreateAdvertisement.tsx:85 | Recogniser and pattern agree in both directions. |
| AdvertisementSchema.FormattedIntegerPart | src/screens/CreateAdvertisement.tsx:85 | The part of a formatted price before its comma is an integer part of the pattern. |
| AdvertisementSchema.FormattedPriceMatches | src/screens/CreateAdvertisement.tsx:85 | Every formatted price matches the pattern. |
| AdvertisementSchema.FormattedPriceAccepted | src/screens/CreateAdvertisement.tsx:162 | The recogniser accepts every formatted price, so a form prefilled for editing passes the price rule. |
| AdvertisementSchema.AcceptsZero | src/screens/CreateAdvertisement.tsx:85 | "0" matches. |
| AdvertisementSchema.AcceptsPlainInteger | src/screens/CreateAdvertisement.tsx:85 | "12" matches. |
| AdvertisementSchema.AcceptsOneDecimal | src/screens/CreateAdvertisement.tsx:85 | "0,5" matches. |
| AdvertisementSchema.AcceptsUngroupedThousands | src/screens/CreateAdvertisement.tsx:85 | "1234,5" matches. |
| AdvertisementSchema.AcceptsGroupedThousands | src/screens/CreateAdvertisement.tsx:85 | "1.234,56" matches. |
| AdvertisementSchema.AcceptsLeadingBlanks | src/screens/CreateAdvertisement.tsx:85 | "  12" matches. |
| AdvertisementSchema.AcceptsBareDot | src/screens/CreateAdvertisement.tsx:85 | "1." matches, because dots are not position-checked. |
| AdvertisementSchema.RejectsLeadingZero | src/screens/CreateAdvertisement.tsx:85 | "01" does not match. |
| AdvertisementSchema.RejectsThreeDecimals | src/screens/CreateAdvertisement.tsx:85 | "1,234" does not match. |
| AdvertisementSchema.RejectsEmpty | src/screens/CreateAdvertisement.tsx:85 | "" does not match. |
| AdvertisementSchema.RejectsTrailingBlank | src/screens/CreateAdvertisement.tsx:85 | "12 " does not match. |
| AdvertisementPreview.MetadataBody | src/screens/AdvertisementPreview.tsx:36-45 | The body's payment methods are the draft's keys in draft order. name, description, is_new, price and accept_trade are the draft's. |
| AdvertisementPreview.NewPhotos | src/screens/AdvertisementPreview.tsx:47-54 | No more files than images. Emptiness, order and multiplicity are proved by `NewPhotosEmpty`, `NewPhotosInDraftOrder` and `NewPhotosCount`. |
| AdvertisementPreview.NewPhotosEmpty | src/screens/AdvertisementPreview.tsx:47-54 | Nothing is uploaded exactly when every image of the draft has type ''. |
| AdvertisementPreview.NewPhotosInDraftOrder | src/screens/AdvertisementPreview.tsx:48-54 | File k of the upload is the k-th image with a non-empty type, so the files follow draft order and there are as many as such images. |
| AdvertisementPreview.NewPhotosCount | src/screens/AdvertisementPreview.tsx:48-54 | A file with a non-empty type is uploaded as often as it is staged in the draft; a file with an empty type is never uploaded. |
| AdvertisementPreview.NewPhotosMembers | src/screens/AdvertisementPreview.tsx:49-53 | A file is uploaded exactly when it is staged in the draft with a non-empty type (membership only). |
| AdvertisementPreview.CollectNewPhotos | src/screens/AdvertisementPreview.tsx:47-54 | The loop collects exactly `NewPhotos` of the images, and the flag is set exactly when some image has a non-empty type. |
| AdvertisementPreview.ResolvedId | src/screens/AdvertisementPreview.tsx:56-61 | The id the upload uses is the created id for draft id "0", and the draft's id otherwise. |
| AdvertisementPreview.FirstRequest | src/screens/AdvertisementPreview.tsx:56-63 | The first request is POST /products exactly for draft id "0", and PUT /products/{id} otherwise. |
| AdvertisementPreview.HasDeletions | src/screens/AdvertisementPreview.tsx:66 | Only an update deletes stored images. An update deletes them exactly when the deletion list is present and non-empty. |
| AdvertisementPreview.CreatedId | src/screens/AdvertisementPreview.tsx:59-61 | For a new product whose creation is accepted, the upload's id is the id in the reply. A rejected first request yields "". |
| AdvertisementPreview.PublishRequests | src/screens/AdvertisementPreview.tsx:56-77 | One to three requests, the first being the metadata request. |
| AdvertisementPreview.PublishPlanShape | src/screens/AdvertisementPreview.tsx:56-77 | After the metadata request, only deletions and the upload follow. A creation issues no deletion. The deletion is issued exactly when editing with a non-empty deletion list, and carries exactly that list. The upload is issued exactly when a file is new, comes last, and carries all new files under the resolved id. |
| AdvertisementPreview.DraftBodyCarriesForm | src/screens/AdvertisementPreview.tsx:36-45 | For a draft built by the form, the published body carries the form's values. A key is sent exactly when it is a ticked catalog key. |
| AdvertisementPreview.Slides | src/screens/AdvertisementPreview.tsx:115-120 | One slide per image. Slide k has the image's uri as path, and the uri followed by k as id. |
| AdvertisementPreview.SlideIdsDistinct | src/screens/AdvertisementPreview.tsx:116 | With at most ten images, slide ids are pairwise distinct. |
| AdvertisementPreview.PreviewScreen.constructor | src/screens/AdvertisementPreview.tsx:23 | No slides. |
| AdvertisementPreview.PreviewScreen.OnFocus | src/screens/AdvertisementPreview.tsx:115-120 | The slides are rebuilt from the draft's images. |
| AdvertisementPreview.PreviewScreen.HandlePublishProduct | src/screens/AdvertisementPreview.tsx:33-109 | The requests issued are a non-empty prefix of the plan. Every request but the last was accepted. Publication fails exactly when the last was rejected, with its error, and otherwise the whole plan was issued. The draft is reset to the default exactly when a real id was resolved, in both the create and the edit case; otherwise it is untouched. |
| ProductInfo.PaymentLabel | src/components/ProductInfo.tsx:152-157 | An unknown key reads "Pix", and every label is a catalog name. |
| ProductInfo.CatalogLabelsAgree | src/components/ProductInfo.tsx:152-157 | Every catalog key is labelled with its catalog name. |
| Strings.Utf16Length | src/components/ProductInfo.tsx:93 | JavaScript's `length`: each character counts one or two UTF-16 units, so the count is between the number of characters and twice that. |
| ProductInfo.UsesOneRowLayout | src/components/ProductInfo.tsx:93 | The one-row layout needs a name of at most 29 UTF-16 units. For a one-digit price it is used exactly then. |
| ProductInfo.OneRowLayoutCountsUtf16Units | src/components/ProductInfo.tsx:93 | 28 letters and one emoji with price 5 make 30 characters, yet the card uses two rows, because the emoji counts two units. |
| ProductInfo.OneRowLayoutMonotone | src/components/ProductInfo.tsx:93 | A name of fewer UTF-16 units with a lower price never leaves the one-row layout. |
| ProductInfo.LongLayoutPrice | src/components/ProductInfo.tsx:114 | From 100 up it equals `formatPriceValue`; below, it is "," followed by the unpadded digits. |
| ProductInfo.LongLayoutSmallPrice | src/components/ProductInfo.tsx:114 | For 5 the two-row layout shows ",5" while `formatPriceValue` gives "0,05". |
| ProductInfo.DisplayedPrice | src/components/ProductInfo.tsx:93-119 | The layout is chosen by the name's UTF-16 length. The one-row layout shows `formatPriceValue`, and the two-row layout shows the unpadded text. |
| ProductInfo.DisplayedPriceDiffers | src/components/ProductInfo.tsx:93-119 | The card's price differs from `formatPriceValue` exactly for a two-row card priced below 100. |
| ProductInfo.ConditionBadge | src/components/ProductInfo.tsx:90 | "NOVO" if and only if is_new, otherwise "USADO". |
| ProductInfo.TradeLabel | src/components/ProductInfo.tsx:131 | "Sim" if and only if accept_trade, otherwise "Não". |
| ProductInfo.ShowsDeactivatedBanner | src/components/ProductInfo.tsx:57 | The banner shows exactly when is_active is false or absent. |

## Left out

- Not modelled: HTTP, toasts, navigation, the image picker and the file system. Each reply, picked batch and reported size is a parameter, and each request is an abstract value.
- Loading flags: the screens' own flags (form, photo selection, submission, reset and apply) are not modelled; only the store's flag is.
- The price text to cents conversion (`parseFloat`/`toFixed` at src/screens/CreateAdvertisement.tsx:277) is floating point, so `HandleGoToPreview` takes the cents as a parameter and no round trip is claimed for it.
- The yup rules other than the price pattern (name, description, condition and payment-count checks) are not modelled. `HandleGoToPreview` stands for a submission that passed them.
- The duplicate test `image.uri in fileNamesSelected` (src/screens/CreateAdvertisement.tsx:208) tests array indices, not values, and is not modelled.
- Sequential order: the per-asset appends run in an async `map`, and overlapping fetches race on the shared loading flag. The model runs everything in order, one asset after another.
- The carousel's scroll-index arithmetic (floating-point division and rounding) is not modelled.
- Not modelled: the SignUp, SignIn and ProductDetail screens, and the purely presentational components.
- Not modelled: Home's `fetchAvailableProducts`, MyAdvertisement's `fetchUserProducts` and the focus effects that run them. They read list state captured before their own fetch completes, which depends on the rendering library's scheduling.
- Prices are non-negative integers of cents. Fractional, negative or undefined prices are not modelled.
- PriceFormat.FormatPriceValue: `toLocaleString` is taken to be the plain, ungrouped digit string. A grouping locale, and the exponent form of numbers from 10^21 up, are not modelled.
- Home.SearchByName: `toLocaleLowerCase` is modelled as ASCII lower-casing only.
- ProductDto.PaymentKeysOf: for the bare-keys variant of `payment_methods` the model returns the keys, whereas the source's `.key` map would yield undefined entries. Every path of the client builds `{key, name}` pairs.
- CreateAdvertisement.StagedType: a picked asset whose media type is undefined is modelled with the media type as a given string, not the text "undefined".
- CreateAdvertisement.AdvertisementForm.LoadProductPreview: only one run of the focus effect is modelled. In the source the effect depends on the draft (src/screens/CreateAdvertisement.tsx:305-312), so resetting an edited draft runs it again on the default draft, which leaves no photos and a blank form.
- AdvertisementPreview.NewPhotosMembers: states membership only. The order of the uploaded files is stated by `NewPhotosInDraftOrder`, and how often each is uploaded by `NewPhotosCount`.
- CreateAdvertisement.StagedName: the asset id is a given string. An asset without one would put the text "undefined" or "null" into the source's name; that case is not modelled.
- AdvertisementPreview.CreatedId: a creation reply without an id is modelled as the id "", not as undefined.
- Silent exits: when every request succeeds but no real id was resolved, the source's error toast and its return to the home screen are modelled only as the `NotCreated` outcome with the draft kept.
- AdvertisementPreview.SlideIdsDistinct: distinctness is proved for at most ten images. The form stages at most three, and with eleven or more, ids such as "x1"+"1" and "x"+"11" can coincide.
