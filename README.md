# Used-items marketplace: listing store, favourites and listing form

This project models, in Dafny, the logic of a browser-only classified-ads
marketplace:

- the **listing store** (`src/data/products.ts`). One module-level list owns
  every listing and is mirrored to the `marketplace_products` storage slot on
  each change. Listings older than 30 days expire when the module loads, on
  every `getAllProducts` and on `cleanupOldProducts`. `addProduct` appends a
  listing and `deleteProduct` removes by id. `filterProducts` is a read-only
  query: an AND of six tests, then an optional stable sort;
- the **favourites list** (`src/contexts/FavoritesContext.tsx`): append, remove
  every entry with an id, membership by id, and the effect that writes the
  list to `marketplace_favorites` or removes the key when the list is empty.
  The like toggle of `src/components/ProductCard.tsx` builds on it;
- the **listing form** (`src/components/ListingForm.tsx`): upload caps of 5
  images, 2 videos and 3 audio files, removal of one media file by index, the
  two submission gates, and the record handed to `addProduct`.

Modules, one file each:

| file | module | what |
|---|---|---|
| seqs.dfy | `Seqs` | `Filter`, the order-preserving selection that every list update uses, with its lemmas |
| sorting.dfy | `Sorting` | `SortBy`, a stable insertion sort by a real key (how `Array.prototype.sort` must behave), proved sorted, a permutation and stable |
| listing.dfy | `Listings` | the `Listing` and `ContactInfo` records, `HasId` and `WithoutId` |
| products.dfy | `Products` | expiry, the search and match tests, sort modes, and `class Store` |
| favorites.dfy | `Favorites` | `class FavoritesProvider` and its storage slot |
| listing_form.dfy | `ListingForm` | `class ListingForm` (the media lists), validation, record building, the in-flight read model |
| scenarios.dfy | `ProductScenarios` | concrete boundary and sorting cases, and callers of the store's methods |

Representation choices:

- Timestamps are integers, in milliseconds since the epoch. The expiry cutoff is `now - 30 * 86400000`.
- Prices are reals.
- An optional string field is an `Option<string>`. A field that is absent or `""` counts as unset, the same as JavaScript truthiness.
- A storage slot is an `Option<seq<Listing>>` field; `None` means the key is absent. JSON serialisation is taken to round-trip.
- The current time, the generated id and the parsed price are parameters.

Three behaviours of the code that a reader might not expect:

- Unparsable stored data is not recovered from: `JSON.parse` at src/data/products.ts:10 has no `try`/`catch`, so it throws. The model takes the slot already parsed.
- `deleteProduct` removes every listing with the id, not only one (src/data/products.ts:115).
- `getAllProducts` and `cleanupOldProducts` save the listings whether or not anything expired (src/data/products.ts:37 and 108).

## Model

| member | source | states |
|---|---|---|
| `Seqs.Filter` | src/data/products.ts:23-26 | the kept elements are exactly the input's elements that pass the test, no more of each than the input has |
| `Seqs.FilterAppend` | src/data/products.ts:23-26 | filtering a concatenation filters each part, so kept elements keep their relative order |
| `Seqs.FilterKeepsAll` | src/data/products.ts:113-117 | the filter returns its input unchanged, and keeps its length, exactly when every element passes |
| `Seqs.FilterIdempotent` | src/data/products.ts:19-27 | filtering twice with one test equals filtering once |
| `Sorting.SortPermutes` | src/data/products.ts:84-99 | the sort returns a permutation of its input |
| `Sorting.SortSorted` | src/data/products.ts:84-99 | the sort returns its input in non-decreasing key order |
| `Sorting.SortStable` | src/data/products.ts:84-99 | for every key value, the elements with that key keep their input order (a stable sort) |
| `Sorting.InsertPermutes` | src/data/products.ts:84-99 | one insertion step adds exactly the inserted element |
| `Sorting.InsertSorted` | src/data/products.ts:84-99 | one insertion step keeps a sorted list sorted |
| `Sorting.InsertStable` | src/data/products.ts:84-99 | one insertion step puts the element after every element with an equal key |
| `Sorting.SortBy` | src/data/products.ts:86-93 | no contract of its own: `Sorting.SortPermutes`, `Sorting.SortSorted` and `Sorting.SortStable` state that it returns its input reordered, in non-decreasing key order, with equal keys in input order |
| `Listings.HasId` | src/contexts/FavoritesContext.tsx:54-56 | the front-to-back scan is true iff some entry has the id |
| `Listings.WithoutId` | src/data/products.ts:115 | no contract of its own: `Listings.WithoutIdMembers`, `Listings.WithoutIdClears`, `Listings.WithoutIdChanges` and `Listings.WithoutIdAppend` state what removal by id keeps, that the id is gone, when the list changes, and that order is kept |
| `Listings.WithoutIdMembers` | src/data/products.ts:115 | removal by id keeps exactly the listings with another id |
| `Listings.WithoutIdClears` | src/contexts/FavoritesContext.tsx:50-52 | after removal no entry has the id |
| `Listings.WithoutIdChanges` | src/data/products.ts:113-122 | removal changes the list, and shortens it, iff the id is present; an absent id leaves the list as it was |
| `Listings.WithoutIdAppend` | src/contexts/FavoritesContext.tsx:50-52 | removal acts on each part of a concatenation, so the entries that stay keep their order |
| `Products.RemoveOldProducts` | src/data/products.ts:19-27 | no contract of its own: `Products.RemoveOldKeepsExactly`, `Products.RemoveOldIdempotent` and `Products.RemoveOldAppend` state which listings it keeps and in what order |
| `Products.RemoveOldKeepsExactly` | src/data/products.ts:19-27 | expiry keeps exactly the listings created strictly after now minus 30 days |
| `Products.RemoveOldIdempotent` | src/data/products.ts:19-27 | expiring twice at one instant equals expiring once |
| `Products.RemoveOldAppend` | src/data/products.ts:19-27 | expiry of an appended listing does not depend on the listings before it, and the order is kept |
| `Products.Lower` | src/data/products.ts:62-63 | lower-casing keeps the length and folds each character |
| `Products.LowerIdempotent` | src/data/products.ts:62-63 | lower-casing twice equals lower-casing once |
| `Products.Contains` | src/data/products.ts:62-63 | `includes` is true iff the needle occurs at some offset of the haystack |
| `Products.SearchIgnoresTermCase` | src/data/products.ts:61-64 | lower-casing the search term does not change which listings match it |
| `Products.DefaultQuerySelectsAll` | src/data/products.ts:49-81 | with the default parameters every listing priced in [0, MAX_SAFE_INTEGER] is returned, in order |
| `Products.Matches` | src/data/products.ts:60-81 | no contract of its own: the conjunction of the six tests (search, category, inclusive price range, condition, location, seller type); `Products.SearchIgnoresTermCase` and `Products.DefaultQuerySelectsAll` state its properties |
| `Products.Select` | src/data/products.ts:60-81 | no contract of its own: the listings that pass `Products.Matches`, in store order; `Products.Store.FilterProducts` states its membership and `Products.DefaultQuerySelectsAll` its default case |
| `Products.ApplySortCorrect` | src/data/products.ts:84-99 | each mode returns a permutation; price_asc is non-decreasing in price, price_desc non-increasing, newest non-increasing in creation time; equal keys keep insertion order; any other mode leaves the order alone |
| `Products.ApplySort` | src/data/products.ts:84-99 | no contract of its own: `Products.ApplySortCorrect` states its result for every mode |
| `Products.Store.Load` | src/data/products.ts:8-31 | the initial listings are the stored ones (none when the slot is absent) after expiry, and the slot is rewritten with them |
| `Products.Store.SaveProducts` | src/data/products.ts:14-16 | the slot holds exactly the in-memory listings |
| `Products.Store.GetAllProducts` | src/data/products.ts:34-39 | listings are expired, saved and returned; none returned is at or before the cutoff |
| `Products.Store.AddProduct` | src/data/products.ts:42-46 | the listing is appended, the slot mirrors the list, and the same listing is returned |
| `Products.Store.FilterProducts` | src/data/products.ts:49-102 | the result is a permutation of the listings passing all six tests, ordered as the sort mode says, stable, in insertion order for other modes; the store is not changed |
| `Products.Store.CleanupOldProducts` | src/data/products.ts:105-110 | listings are expired and saved; the result is the old count minus the new count, never negative, and zero iff nothing expired |
| `Products.Store.DeleteProduct` | src/data/products.ts:113-122 | every listing with the id is removed; the result is true iff the id was present, iff the length changed; on false neither the list nor the slot changes |
| `Favorites.SlotFor` | src/contexts/FavoritesContext.tsx:38-44 | an empty list leaves the key absent; a non-empty list is stored as it is |
| `Favorites.FavoritesProvider.Mount` | src/contexts/FavoritesContext.tsx:27-44 | the list starts as the stored list, or empty when the key is absent, and the slot is synchronised |
| `Favorites.FavoritesProvider.PersistFavorites` | src/contexts/FavoritesContext.tsx:38-44 | after the effect the slot matches the list |
| `Favorites.FavoritesProvider.IsFavorite` | src/contexts/FavoritesContext.tsx:54-56 | true iff some entry has the id |
| `Favorites.FavoritesProvider.AddToFavorites` | src/contexts/FavoritesContext.tsx:46-48 | the listing is appended with no deduplication; its id is then a favourite; the slot is synchronised |
| `Favorites.FavoritesProvider.RemoveFromFavorites` | src/contexts/FavoritesContext.tsx:50-52 | every entry with the id is removed and the rest keep their order; the id is no longer a favourite; an absent id changes nothing |
| `Favorites.FavoritesProvider.ToggleFavorite` | src/components/ProductCard.tsx:44-50 | a favourite is removed and any other listing is added, so membership of the id flips |
| `Favorites.AddThenRemoveRestores` | src/components/ProductCard.tsx:44-50 | two toggles starting from "not a favourite" give back the original list |
| `ListingForm.UploadBatch` | src/components/ListingForm.tsx:67-90 | no file list does nothing; a batch taking the list past its cap is refused and changes nothing; otherwise the batch is appended; a list within its cap stays within it |
| `ListingForm.ListingForm.constructor` | src/components/ListingForm.tsx:30-32 | all three media lists start empty and within their caps |
| `ListingForm.ListingForm.HandleImageUpload` | src/components/ListingForm.tsx:67-90 | an image batch is refused above 5 in all, with no change; the caps stay respected |
| `ListingForm.ListingForm.HandleVideoUpload` | src/components/ListingForm.tsx:93-116 | a video batch is refused above 2 in all, with no change; the caps stay respected |
| `ListingForm.ListingForm.HandleAudioUpload` | src/components/ListingForm.tsx:119-142 | an audio batch is refused above 3 in all, with no change; the caps stay respected |
| `ListingForm.RemoveIndex` | src/components/ListingForm.tsx:145-155 | exactly the element at the index is dropped and the rest keep their order; an index out of range changes nothing |
| `ListingForm.ListingForm.RemoveImage` | src/components/ListingForm.tsx:145-147 | the images lose the one at the index |
| `ListingForm.ListingForm.RemoveVideo` | src/components/ListingForm.tsx:149-151 | the videos lose the one at the index |
| `ListingForm.ListingForm.RemoveAudio` | src/components/ListingForm.tsx:153-155 | the audio files lose the one at the index |
| `ListingForm.ListingForm.HandleSubmit` | src/components/ListingForm.tsx:158-205 | a rejected form reports its gate and leaves the store untouched; an accepted one adds the built listing exactly once and the slot mirrors the store |
| `ListingForm.Validate` | src/components/ListingForm.tsx:161-177 | no contract of its own: `ListingForm.AcceptedIffComplete` and `ListingForm.ContactGateSecond` state when each gate fires and that the fields gate comes first |
| `ListingForm.AcceptedIffComplete` | src/components/ListingForm.tsx:161-177 | the form is accepted iff the price text is filled in and the listing it builds has title, description, category, a media file and a phone or an email |
| `ListingForm.ContactGateSecond` | src/components/ListingForm.tsx:161-177 | the contact error is reported only when every required field and some media are present and both phone and email are empty |
| `ListingForm.BuildProduct` | src/components/ListingForm.tsx:182-202 | no contract of its own: `ListingForm.BuildProductFields` states every field of the record it builds |
| `ListingForm.BuildProductFields` | src/components/ListingForm.tsx:182-202 | every field of the listing is the form's value (id, title, description, price, category, creation time, the three media lists, condition, location and every contact field), seller type and seller id are absent; the profile URL is absent iff the input is empty, and reading it back with "" as default gives the input |
| `ListingForm.StartBatchAsWritten` | src/components/ListingForm.tsx:72-89 | as written, a batch is accepted iff the files already in the list plus the batch fit the cap |
| `ListingForm.StartBatchCounted` | src/components/ListingForm.tsx:72-89 | with reads in flight counted, a batch is accepted iff all of them fit the cap, and the cap is kept |
| `ListingForm.ReadFinished` | src/components/ListingForm.tsx:83-87 | one completed read moves one file into the list: the committed count grows by one and committed plus reading stays the same |
| `ListingForm.AllReadsFinished` | src/components/ListingForm.tsx:81-89 | once every read completes, all accepted files are in the list |
| `ListingForm.AsWrittenExceedsImageCap` | src/components/ListingForm.tsx:72-89 | two batches of three images chosen before the first is read are both accepted and leave six images |
| `ListingForm.CountedKeepsCap` | src/components/ListingForm.tsx:72-89 | with reads in flight counted, the list never passes its cap |
| `ListingForm.CountedMatchesAtomic` | src/components/ListingForm.tsx:72-89 | with nothing in flight, the counted check decides like the atomic handler and leaves as many files |
| `ProductScenarios.PriceBoundsInclusive` | src/data/products.ts:68 | a price equal to either bound matches; one unit below the minimum or above the maximum does not |
| `ProductScenarios.ExpiryBoundary` | src/data/products.ts:19-27 | created 30 days and one second ago, or exactly at the cutoff: expired; created 29 days ago: kept |
| `ProductScenarios.EqualPricesKeepOrder` | src/data/products.ts:85-87 | two listings of equal price keep their insertion order under price_asc |
| `ProductScenarios.ElectronicsByPriceDesc` | src/data/products.ts:49-102 | prices 50 and 150 (Electronics) and 300 (Books), filtered on Electronics and sorted by price_desc, give [150, 50] |
| `ProductScenarios.CleanupTwice` | src/data/products.ts:105-110 | a second cleanup at the same instant removes nothing |
| `ProductScenarios.AddThenGetAll` | src/data/products.ts:34-46 | a listing created after the cutoff is returned by the next getAllProducts, after the listings already there |
| `ProductScenarios.QueryAndDeleteAbsent` | src/data/products.ts:49-122 | a query does not change what getAllProducts returns; deleting an absent id returns false |

## Findings

| source | as written | input that shows it | evidently intended | confidence | as-written member | corrected member |
|---|---|---|---|---|---|---|
| src/components/ListingForm.tsx:72-89 | the cap is checked against `images.length`. Accepted files reach the list only in later `FileReader` `onload` callbacks, so files still being read are not counted | choose 3 images, then choose 3 more before the first 3 finish reading: both batches pass, and 6 images result. The video (2) and audio (3) handlers have the same gap | at most 5 images (2 videos, 3 audio files) in all, counting files still being read | medium; not executed | `ListingForm.AsWrittenExceedsImageCap` | `ListingForm.CountedKeepsCap` |

The class `ListingForm.ListingForm` uses the corrected behaviour. Each accepted batch is appended whole before the next check, and `ListingForm.CountedMatchesAtomic` shows this decides like the counted check.

## Left out

- Storage and JSON are left out. The storage slots are abstract fields, and JSON serialisation is taken to round-trip a listing exactly.
- Malformed stored JSON is left out. `JSON.parse` throws on it, and the code has no recovery path to model.
- Favourites mount: in React, the storage effect first runs with the empty initial list, which removes the key for a moment. The loaded list is then written back. `Favorites.FavoritesProvider.Mount` models only the settled state.
- Date handling is reduced to integer milliseconds:
  - `setDate(getDate() - 30)` works in local calendar time, so across a daylight-saving change the cutoff can be an hour off from 30 × 24 hours;
  - ISO date strings are not parsed;
  - an unparsable `createdAt` (NaN) is not modelled.
- `ListingForm.ListingForm.HandleSubmit`: takes the id (`Date.now().toString()`), the price (`parseFloat`) and the creation instant as parameters. Float parsing, a NaN price and clock reads are not modelled.
- Products.Lower: case folding covers ASCII letters only. JavaScript's `toLowerCase` is full Unicode, and `includes` works on UTF-16 code units.
- Prices are exact reals, not IEEE doubles. The comparator `a.price - b.price` is modelled as a comparison of prices.
- `ListingForm.UploadBatch`: an `onload` whose `result` is empty is not modelled; every accepted file is appended. The asynchronous reads themselves appear only in the in-flight model of the finding.
- The form's text fields are a `FormFields` value passed to submission. Their `onChange` setters are React plumbing.
- React state, hooks, toasts, navigation, rendering and the `isSubmitting` flag are left out.
- The presentational components, the search debounce, the 3D background, the mock chat and the language selector are left out. They hold no listing logic.
- The `'all'` to `''` mapping of the category in `src/pages/Index.tsx:76` is caller glue and is not part of this model.
