# Smart Inventory Management System: client data layer and product list, in Dafny

This project models the two parts of the inventory client that carry behaviour:

- **The data-access layer** (`client/src/lib/client.ts`). The four CRUD operations on
  `Product` records first try the REST API. When that fails, they work on a list kept in
  browser local storage under the key `sim_products_v1`. The list is seeded with three
  sample products whenever the `getProducts` fallback finds it empty.
  - The storage key's content is the `Stored` datatype: absent, not JSON, JSON that is not
    an array, or an array of products.
  - `Client.ProductStore` is a class whose one field is that content. Its methods are the
    four operations together with `readLocalProducts`, `writeLocalProducts` and `ensureSeed`.
  - Each CRUD method receives the remote outcome (`Answered(body)` or `Unavailable`) and
    whatever generated values its fallback needs: the seed ids and timestamp for
    `GetProducts`, a fresh id and a timestamp for `CreateProduct`, a timestamp for
    `UpdateProduct`, and nothing more for `DeleteProduct`. `EnsureSeed` takes the seed ids
    and timestamp, and `WriteLocalProducts` only the array; neither receives a remote outcome.
  - Each method's new state and result are tied to a pure fallback function
    (`FallbackList`, `FallbackCreate`, `FallbackUpdate`, `FallbackDelete`). The properties
    are proved about those functions.
- **The product list view** (`client/src/pages/Products.tsx`). The rows are derived from
  the loaded products, the search text and the sort controls. There are also the form's
  Save-button rule and its submit mapping.
  - `Products.Derive` is the `useMemo` block: a case-insensitive substring search over
    name, SKU and category, then a sort of a copy by name, price or stock in either direction.
  - The sort is proved to give a permutation of the filtered list. The result is ordered by
    the comparator, and it is stable.

Modules: `Wrappers` (Option, Result), `Seqs` (`Array.prototype.filter` and subsequences),
`Text` (`trim`, `toLowerCase`, `includes`, and the stand-in for `localeCompare`), `Client`,
`Products`, and `Scenarios`. `Scenarios` holds a filter and sort example and an offline
session that uses only the store's contracts.

Stand-ins for the environment:
- JavaScript numbers are Dafny `real`s (`Client.Number`).
- `localeCompare` is the lexicographic order on character codes.
- `toLowerCase` maps the ASCII letters only.
- `Number(text)` and `number.toString()` are function parameters (`toNumber`, `toText`).

The code reseeds whenever the `getProducts` fallback finds the list empty: after every
record was deleted, or when the stored text is corrupt (`Client.SeedStep`).

Notes on the code as written, shown by the model and not treated as bugs:
- A null response body makes `data.products` or `data.product` throw inside the `try`, so
  the call falls back to the local list (`NormaliseList` and `NormaliseProduct` return `None`).
- Deleting an id that is not there still rewrites the key. Corrupt content then becomes
  an empty array, while the list as read stays the same (`Client.FallbackDelete`).
- The descending order is the stable sort under the negated comparator. When keys tie, it
  keeps the loaded order, so it is not the reverse of the ascending order.
- Editing a product whose category is the empty string, and saving without changes, removes
  its category (`Products.EditUnchangedRoundTrip` excludes that case, and
  `Products.BlankCategoryClears` states it).

## Model

| member | source | states |
|---|---|---|
| `Client.Decode` | client/src/lib/client.ts:27-37 | an array payload reads back unchanged; absent, unparsable or non-array content reads as the empty list, never an error |
| `Client.ProductStore.WriteLocalProducts` | client/src/lib/client.ts:39-41 | after a write the key holds exactly that array |
| `Client.SeedProducts` | client/src/lib/client.ts:54-58 | the seed is three records, each with a positive price and stock and a category, all created at the one timestamp and never updated |
| `Client.ProductStore.ReadLocalProducts` | client/src/lib/client.ts:27-37 | the store reads as its stored array, or as the empty list when the key is absent, not JSON or not an array |
| `Client.SeedStep` | client/src/lib/client.ts:50-60 | a store that reads non-empty is left untouched; an empty one becomes exactly the three seed products; afterwards the store always reads non-empty |
| `Client.SeedShape` | client/src/lib/client.ts:53-58 | the seed is three products carrying the three generated ids in order, all with `createdAt` equal to the one timestamp and no `updatedAt` |
| `Client.SeedIdempotent` | client/src/lib/client.ts:51-52 | seeding a second time, with any ids and clock, changes nothing |
| `Client.SeedUniqueIds` | client/src/lib/client.ts:54-58 | distinct generated ids give a seed list with unique ids |
| `Client.ProductStore.EnsureSeed` | client/src/lib/client.ts:50-60 | the new store content is `SeedStep` of the old one |
| `Client.NormaliseList` | client/src/lib/client.ts:74 | an array body is returned as is; an object body gives its `products` or `[]` when that is missing; a null body throws and so falls back |
| `Client.NormaliseProduct` | client/src/lib/client.ts:91 | `data.product` when wrapped, otherwise the body itself (the same rule at line 112); a null body throws and so falls back |
| `Client.FallbackList` | client/src/lib/client.ts:75-78 | the list returned is what the store reads after seeding, and it is non-empty; a non-empty store is returned unchanged; an empty one yields the seed |
| `Client.ListTwice` | client/src/lib/client.ts:75-78 | a second fallback read does not reseed and returns the same list with the same store |
| `Client.ProductStore.GetProducts` | client/src/lib/client.ts:68-79 | with a usable response, the normalised body is returned and the store is untouched; otherwise the store and result are `FallbackList` of the old store |
| `Client.NewProduct` | client/src/lib/client.ts:94-95 | the new record carries the input's fields, the given id and `createdAt`, and no `updatedAt` |
| `Client.FallbackCreate` | client/src/lib/client.ts:94-99 | the store becomes the new record followed by the old list (length + 1, old order kept), and that record is returned |
| `Client.CreateThenList` | client/src/lib/client.ts:94-99 | listing after a fallback create returns the new record then the old list, with no reseeding |
| `Client.CreateKeepsUniqueIds` | client/src/lib/client.ts:95-97 | creating under an id not in the list keeps the ids unique |
| `Client.ProductStore.CreateProduct` | client/src/lib/client.ts:81-101 | a usable response gives its normalised product and leaves the store alone; otherwise store and result are `FallbackCreate` |
| `Client.FindIndex` | client/src/lib/client.ts:116 | -1 exactly when no record has the id; otherwise the first index whose record has it |
| `Client.ApplyPatch` | client/src/lib/client.ts:118 | the merged record keeps `id` and `createdAt` and has `updatedAt` set to the timestamp |
| `Client.EmptyPatchStampsOnly` | client/src/lib/client.ts:118 | a patch with no keys changes nothing but `updatedAt` |
| `Client.InputPatch` | client/src/pages/Products.tsx:198 | the edit form's patch, applied to any record, gives the record a create with the same input would make under that record's id and `createdAt`, stamped as updated |
| `Client.InputPatchCarries` | client/src/lib/client.ts:118 | patching with a whole form input makes the record carry exactly that input, and an undefined category clears the old one |
| `Client.FallbackUpdate` | client/src/lib/client.ts:115-122 | an absent id fails with "Product not found" and leaves the store as it was; otherwise only the first matching index changes, the length is kept, and the new record is the patched old one, which is returned |
| `Client.UpdateKeepsIds` | client/src/lib/client.ts:116-120 | an update leaves the list's ids and their order unchanged |
| `Client.ProductStore.UpdateProduct` | client/src/lib/client.ts:103-124 | a usable response gives its normalised product and leaves the store alone; otherwise store and result are `FallbackUpdate` |
| `Client.NotId` | client/src/lib/client.ts:136 | the delete filter's test passes a record exactly when its id differs from the one deleted |
| `Client.RemoveId` | client/src/lib/client.ts:136 | no record with the id remains; every other record remains as many times as it occurred, in the original relative order; a list without the id is returned unchanged |
| `Client.FallbackDelete` | client/src/lib/client.ts:135-138 | the store reads as the old list minus every record with the id, each other record kept with its multiplicity and in order; an absent id leaves the list unchanged; `{ id }` is returned |
| `Client.DeleteIdempotent` | client/src/lib/client.ts:135-138 | deleting the same id twice is the same as deleting it once |
| `Client.CreateThenDelete` | client/src/lib/client.ts:136 | deleting a record just created under a fresh id restores the old list |
| `Client.FallbackKeepsUniqueIds` | client/src/lib/client.ts:115-138 | fallback update and delete keep the ids unique |
| `Client.ProductStore.DeleteProduct` | client/src/lib/client.ts:126-140 | both branches return the id; a successful call leaves the store alone; a failed one leaves `FallbackDelete` of it |
| `Seqs.FilterIsSubsequence` | client/src/pages/Products.tsx:90 | a filtered list is a subsequence of its input |
| `Seqs.FilterMembership` | client/src/pages/Products.tsx:90 | an element survives the filter exactly when it is in the input and passes the test |
| `Seqs.Filter` | client/src/pages/Products.tsx:90 | the filtered list is never longer than its input; each value occurs in it as often as in the input when it passes the test and not at all otherwise (`Seqs.FilterMultiplicity`) |
| `Seqs.FilterMultiplicity` | client/src/lib/client.ts:136 | a value passing the test keeps its multiplicity through the filter; a failing one has none |
| `Seqs.FilterIdempotent` | client/src/lib/client.ts:136 | filtering twice by the same test is filtering once; the delete filter uses it for `Client.DeleteIdempotent` |
| `Text.TrimStart` | client/src/pages/Products.tsx:91 | the result is a suffix of the input that does not start with white space, and everything dropped is white space |
| `Text.TrimEnd` | client/src/pages/Products.tsx:91 | the result is a prefix of the input that does not end with white space, and everything dropped is white space |
| `Text.Trim` | client/src/pages/Products.tsx:91 | the trimmed text is a slice of the input with only white space around it, and it neither starts nor ends with white space |
| `Text.TrimEmptyIffBlank` | client/src/pages/Products.tsx:91-92 | trimming leaves nothing exactly when the text is all white space |
| `Text.Lower` | client/src/pages/Products.tsx:91 | lower-casing keeps the length and maps every character on its own |
| `Text.LowerIdempotent` | client/src/pages/Products.tsx:91-93 | lower-casing lower-case text changes nothing |
| `Text.LowerTrimCommute` | client/src/pages/Products.tsx:91 | trimming and lower-casing can be done in either order |
| `Text.Includes` | client/src/pages/Products.tsx:93 | the empty needle is always found, a prefix is found, and a needle longer than the haystack never is |
| `Text.IncludesIffOccurs` | client/src/pages/Products.tsx:93 | `includes` holds exactly when the needle occurs at some index (the empty needle always does) |
| `Text.LocaleCompare` | client/src/pages/Products.tsx:97 | the comparison is -1, 0 or 1 |
| `Text.LocaleCompareAntisymmetric` | client/src/pages/Products.tsx:97 | swapping the names negates the comparison |
| `Text.LocaleCompareZeroIffEqual` | client/src/pages/Products.tsx:97 | two names compare equal exactly when they are the same string |
| `Text.LocaleCompareTransitive` | client/src/pages/Products.tsx:97 | "sorts no later than" is transitive |
| `Products.Query` | client/src/pages/Products.tsx:91 | the normalised query is lower case, no longer than the search text, and has no white space at either end |
| `Products.MatchesQuery` | client/src/pages/Products.tsx:92-93 | the empty query matches every product; a query longer than the name, the SKU and the category (absent read as `''`) matches none |
| `Products.FilterBySearch` | client/src/pages/Products.tsx:90-94 | the filtered list is a subsequence of the products; a product is kept exactly when it matches the trimmed, lower-cased query, with the multiplicity it had; an empty query keeps every product |
| `Products.EmptyQueryKeepsAll` | client/src/pages/Products.tsx:92 | with an empty query the filter returns the list unchanged |
| `Products.BlankSearchShowsAll` | client/src/pages/Products.tsx:91-92 | a search text made only of white space shows every product |
| `Products.SearchIgnoresCase` | client/src/pages/Products.tsx:91-93 | search texts that agree once lower-cased select the same products |
| `Products.MatchesIffOccurs` | client/src/pages/Products.tsx:93 | a non-empty query matches exactly when it occurs in the lower-cased name, SKU or category (an absent category read as `''`) |
| `Products.Compare` | client/src/pages/Products.tsx:95-99 | ascending, `a` may precede `b` exactly when its key is no greater (names by string order, price and stock numerically); descending, exactly when it is no smaller |
| `Products.CompareZeroIffSameKey` | client/src/pages/Products.tsx:96-99 | the comparator reports a tie exactly when the chosen key is equal, in both directions |
| `Products.CompareAntisymmetric` | client/src/pages/Products.tsx:96-99 | swapping the two products negates the comparator |
| `Products.CompareTransitive` | client/src/pages/Products.tsx:96-99 | the comparator's "not after" is transitive, ascending and descending |
| `Products.Insert` | client/src/pages/Products.tsx:95 | inserting adds exactly one element to the multiset |
| `Products.SortBy` | client/src/pages/Products.tsx:95-100 | the sorted copy is a permutation of its input, and adjacent elements are in comparator order |
| `Products.SortStable` | client/src/pages/Products.tsx:95 | products with equal keys keep their relative order, as `Array.prototype.sort` guarantees |
| `Products.SortedByKey` | client/src/pages/Products.tsx:96-99 | ascending output is non-decreasing in the key (name by string order, price and stock numerically), and descending output is non-increasing |
| `Products.Derive` | client/src/pages/Products.tsx:89-102 | the rows are a permutation of the filtered list; a product is shown exactly when it is loaded and matches; rows are in comparator order; missing data shows nothing |
| `Products.DeriveStable` | client/src/pages/Products.tsx:95-101 | rows with equal sort keys appear in the loaded order |
| `Products.InitialForm` | client/src/pages/Products.tsx:21-25 | an edit form starts with the product's name, SKU and number texts, and an empty category field exactly when the category is absent or `''`; a new-product form starts with every field `''` and Save disabled |
| `Products.Disabled` | client/src/pages/Products.tsx:32 | Save is off while saving; when it is on, nothing is being saved, price and stock have text, and the submitted name and SKU are non-empty for any number conversion |
| `Products.Submit` | client/src/pages/Products.tsx:29 | name and SKU pass through; price and stock are the numeric conversions of their text; an empty category becomes undefined, any other is kept |
| `Products.EnabledSubmitsNames` | client/src/pages/Products.tsx:32 | when Save is enabled nothing is being saved, and the submitted name and SKU are non-empty |
| `Products.EditUnchangedRoundTrip` | client/src/pages/Products.tsx:21-29 | opening the edit form on a product and saving it unchanged only stamps `updatedAt`, when numbers survive the text round trip and the category is not `''` |
| `Products.BlankCategoryClears` | client/src/pages/Products.tsx:29 | saving an edit with a blank category removes the product's category |
| `Scenarios.PriceAscending` | client/src/pages/Products.tsx:98 | Mouse (10), Keyboard (50), Monitor (200) sorted by price ascending stay in that order |
| `Scenarios.StockDescending` | client/src/pages/Products.tsx:99 | the same three by stock descending give Monitor (9), Mouse (5), Keyboard (2) |
| `Scenarios.SearchKey` | client/src/pages/Products.tsx:90-94 | searching those three for "key" leaves only Keyboard |

## Left out

- Networking: `fetch`, HTTP statuses and `res.json()` are not modelled. A remote attempt is a parameter (`Answered(body)` or `Unavailable`), and what the API stores or returns is not modelled.
- `uuid()` and `new Date().toISOString()` are not modelled, because they are random and clock-dependent. The ids and timestamps are parameters, and id uniqueness is a precondition where a lemma needs it.
- JSON serialisation and `localStorage` are not modelled. The decoded `Stored` value stands in for the key's text. A write is read back as the same array.
- Response bodies are typed as products; a remote body whose `products` or `product` field has some other JSON type is not modelled.
- Floating point is not modelled: prices and stocks are exact reals, without NaN, the infinities or rounding. `toFixed` display formatting is left out.
- `localeCompare` collation is not modelled. It is stood in for by the lexicographic order on character codes, which keeps the total-order properties the sort depends on.
- `toLowerCase` maps ASCII letters only. Unicode case mapping is left out.
- `getHealth`, `Dashboard.tsx`, `App.tsx`, `main.tsx` and the server files are plain fetches, UI glue and framework wiring, and are not modelled. React rendering, modals, state hooks and react-query caching, retry and invalidation are left out too.
- A patch key holding `undefined` for name, SKU, price or stock is not modelled, because a `Product` field of those types cannot hold it and the edit form never sends one; only `category` can be carried as undefined (`Some(None)`).
- Races between browser tabs on the shared storage key are not modelled; each operation is one atomic step.
- `Array.prototype.sort`'s stable sort is modelled as insertion sort. Sorted order, permutation and stability together fix the result for this comparator, so only the algorithm differs. The in-place sort of the copy is not modelled.
