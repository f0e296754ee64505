# Furniture inventory dashboard: the inventory store and the category registry

This project is a Dafny model of the two state hooks of a furniture inventory dashboard.

**The inventory store** (`useInventory`) covers:
- **The product list.** A class, `Inventory.InventoryStore`, holds it as a `seq<Product>`. Four operations change it:
  - *add* appends a record under a fresh id;
  - *update* merges a partial record into every record with the id;
  - *delete* removes every record with the id;
  - *stock adjust* sets the stock of every record with the id to the quantity clamped at zero.
- **Three derived views**, recomputed from the list:
  - *statistics*: product count, total stock value, out-of-stock and low-stock counts, and per-category counts. `ComputeStats` computes them with the same accumulating loop the hook uses.
  - *stock alerts*: the products at or below their minimum stock, each turned into an alert with a severity, then sorted by stock.
  - *the filtered list*: a case-insensitive search over name, SKU and material, combined with a category filter.

**The category registry** (`useCategories`) covers:
- **The category list.** A class, `Categories.CategoryRegistry`, holds it and supports add, update and delete.
- **Slug ids.** A new category's id is its name, lower-cased, with each run of whitespace replaced by one hyphen.
- **Lookup tables.** The id-to-label and id-to-icon tables are built by folding over the list.

**Shared modules:**
- `Seqs` models `Array.prototype.filter` and `map` as `Filter` and `Map`. It also defines `Positions`, the indices a filter keeps, which is used to state order preservation.
- `Text` models:
  - ASCII lower-casing;
  - the ECMAScript `\s` class, in full;
  - `String.prototype.includes`.
- `Wrappers` models `Option`. A field of a partial update that the caller leaves out is `None`.

**Representation choices:**
- Prices are whole numbers (cents), so the total value is exact.
- The fresh product id is a parameter of `AddProduct`.
- Timestamps are not modelled.
- The category list the statistics read is a parameter of `ComputeStats`.

**Behaviour of the code the model keeps:**
- **Unregistered categories in `categoryCounts`.** For a product whose category is not a registered id, the hook runs `counts[category]++` on a missing key, which stores `NaN` under that key rather than skipping it. The model has the `Tally` value `NotANumber` for this case. `CategoryCountsSpec` states when such a key appears.
- **Updating an absent id.** The hook reports nothing when asked to update an id no record has; it leaves the list unchanged (`UpdateAbsentProduct`, `UpdateAbsentCategory`).
- **Duplicate category ids.** `addCategory` does not check whether the slug is already in use, so two categories can share an id. The delete and update operations act on all of them, and in the lookup tables the later entry wins (`LookupLastWins`).

## Model

| member | source | states |
|---|---|---|
| Categories.Slugify | src/hooks/useCategories.ts:24 | the derived id contains no whitespace character and no upper-case letter |
| Categories.Hyphenate | src/hooks/useCategories.ts:24 | `replace(/\s+/g, '-')`: the result contains no whitespace character |
| Categories.HyphenateRun | src/hooks/useCategories.ts:24 | a maximal run of whitespace after a word, however long, becomes exactly one hyphen and the rest is hyphenated in turn |
| Categories.HyphenateFixes | src/hooks/useCategories.ts:24 | text without whitespace passes through the replacement unchanged |
| Categories.SlugIdempotent | src/hooks/useCategories.ts:24 | applying the slug rule to a slug changes nothing, so the form's own slug rule and the one in addCategory agree |
| Categories.SlugExample | src/hooks/useCategories.ts:24 | "Corner Sofas" gets the id "corner-sofas" |
| Categories.CategoryRegistry.constructor | src/hooks/useCategories.ts:5 | the registry starts with the seed list |
| Categories.CategoryRegistry.AddCategory | src/hooks/useCategories.ts:21-29 | exactly one entry is appended, whatever ids exist already; it is the draft with its id replaced by the slug of its name, and it is returned |
| Categories.CategoryRegistry.UpdateCategory | src/hooks/useCategories.ts:32-38 | the new list is the old one with the patch merged into the entries carrying the id; the length is unchanged |
| Categories.CategoryRegistry.DeleteCategory | src/hooks/useCategories.ts:40-42 | the new list is the old one without the entries carrying the id; no entry with that id is left |
| Categories.MergeCategory | src/hooks/useCategories.ts:35 | the spread merge `{ ...cat, ...updates }`: a patch that supplies nothing changes nothing, and the id is the supplied one if any, else the old one |
| Categories.UpdateCategoryEffect | src/hooks/useCategories.ts:32-38 | an update keeps the length and order; each entry with the id becomes the merge of entry and patch, and every other entry is unchanged |
| Categories.UpdateAbsentCategory | src/hooks/useCategories.ts:32-38 | updating an id no entry has leaves the list unchanged |
| Categories.DeleteCategoryEffect | src/hooks/useCategories.ts:40-42 | after a delete the id is gone; an entry is kept if and only if its id differs; kept entries are exactly the list entries at increasing positions where the id differs; deleting twice equals deleting once |
| Categories.DeleteUndoesAdd | src/hooks/useCategories.ts:21-42 | deleting the id of a just-added category restores the list, when that slug was not in use |
| Categories.Lookup | src/hooks/useCategories.ts:7-19 | the table the reduce builds, one assignment per entry in list order; its keys are exactly the ids in the list (the JavaScript key `__proto__` aside, see "Left out") |
| Categories.LookupLastWins | src/hooks/useCategories.ts:7-19 | an entry with no later entry of the same id has its label or icon in the table |
| Categories.BuildLookup | src/hooks/useCategories.ts:7-19 | the accumulating loop builds the fold's table; its keys are the ids, and the last entry of each id supplies the value |
| Text.ContainsAt | src/hooks/useInventory.ts:57-59 | `includes` holds exactly when the needle occurs at some offset of the haystack |
| Text.LowerKeepsOccurrence | src/hooks/useInventory.ts:57-59 | an occurrence of the query survives lower-casing both strings |
| Inventory.InventoryStore.constructor | src/hooks/useInventory.ts:7 | the store starts with the seed list |
| Inventory.InventoryStore.AddProduct | src/hooks/useInventory.ts:67-76 | exactly one record is appended after the unchanged old list; it is the draft under the fresh id, and it is returned |
| Inventory.InventoryStore.UpdateProduct | src/hooks/useInventory.ts:78-86 | the new list is the old one with the patch merged into the records carrying the id |
| Inventory.InventoryStore.DeleteProduct | src/hooks/useInventory.ts:88-90 | the new list is the old one without the records carrying the id; no record with that id is left |
| Inventory.InventoryStore.UpdateStock | src/hooks/useInventory.ts:92-100 | the new list is the old one with the stock of the records carrying the id set to max(0, quantity); the length is unchanged |
| Inventory.MergeProduct | src/hooks/useInventory.ts:82 | the spread merge `{ ...p, ...updates }`: a patch that supplies nothing changes nothing; the id and the stock are the supplied ones if any, else the old ones, with no clamping of a supplied stock |
| Inventory.ClampStock | src/hooks/useInventory.ts:96 | `Math.max(0, quantity)`: the result is non-negative, at least the quantity, and either 0 or the quantity |
| Inventory.UpdateProductEffect | src/hooks/useInventory.ts:78-86 | an update keeps the length and order; each record with the id becomes the merge of record and patch, and every other record is unchanged |
| Inventory.UpdateAbsentProduct | src/hooks/useInventory.ts:78-86 | updating an id no record has leaves the list unchanged |
| Inventory.UpdateStockEffect | src/hooks/useInventory.ts:92-100 | only the stock of records with the id changes, to the quantity or 0 if it is negative, and is therefore non-negative; every other field and record is unchanged, and so is the length |
| Inventory.DeleteProductEffect | src/hooks/useInventory.ts:88-90 | after a delete the id is gone; a record is kept if and only if its id differs; kept records are exactly the list records at increasing positions where the id differs; deleting twice equals deleting once |
| Inventory.DeleteUndoesAdd | src/hooks/useInventory.ts:67-90 | deleting the fresh id of a just-added product restores the list |
| Inventory.StockInvariant | src/hooks/useInventory.ts:67-100 | non-negative stock everywhere is kept by stock adjustment and deletion always, by adding a non-negative draft, and by an update that supplies no negative stock |
| Inventory.Status | src/components/inventory/ProductCard.tsx:16-20 | the three-way status: out of stock exactly at stock 0; with a non-negative minimum, anything but in stock exactly when the product is at or below its minimum |
| Inventory.StatusCounts | src/hooks/useInventory.ts:25-29 | every product is exactly one of out of stock, low on stock or in stock, so the three counts sum to the product count and low plus out is at most the product count |
| Inventory.Bump | src/hooks/useInventory.ts:22 | `counts[key]++`: the key is present afterwards and every other key is unchanged; a count grows by one; a missing or NaN entry becomes NaN |
| Inventory.ComputeStats | src/hooks/useInventory.ts:11-39 | the product count is the list length; the total value is the sum of price times stock; the out-of-stock and low-stock counts are the numbers of products with those statuses; the category table is the one obtained by starting every registered id at 0 and incrementing each product's category in turn |
| Inventory.StatsStep | src/hooks/useInventory.ts:21-30 | what one product adds to each accumulator: one increment of its category, its price times stock, and one to exactly the count its stock status selects |
| Inventory.TalliesRegistered | src/hooks/useInventory.ts:22 | a key that starts with a count ends with that count plus the number of products in that category |
| Inventory.TalliesUnregistered | src/hooks/useInventory.ts:22 | a key that does not start in the table is present at the end if and only if some product has that category, and then holds NaN |
| Inventory.CategoryCountsSpec | src/hooks/useInventory.ts:12-22 | every registered id maps to the number of products in that category; an unregistered category is a key if and only if a product has it, and then holds NaN (the JavaScript key `__proto__` aside, see "Left out") |
| Inventory.CategoryCountsSumToTotal | src/hooks/useInventory.ts:12-22 | when every product's category is registered, the counts over the registered ids add up to the number of products |
| Inventory.ToAlert | src/hooks/useInventory.ts:44-50 | the alert carries the product's id and stock; it is critical exactly when the product is out of stock, and a warning for a product that needs restocking means the product is low on stock |
| Inventory.SortByStock | src/hooks/useInventory.ts:51 | the sorted alerts are a permutation of the input |
| Inventory.StockAlerts | src/hooks/useInventory.ts:41-52 | the alerts are sorted by stock, are a permutation of the alerts of the products that need restocking, and are no more than the products |
| Inventory.SortIsSorted | src/hooks/useInventory.ts:51 | the sort puts alerts in non-decreasing order of stock |
| Inventory.SortIsStable | src/hooks/useInventory.ts:51 | the sort keeps the input order among alerts of equal stock |
| Inventory.StableSortIsUnique | src/hooks/useInventory.ts:51 | any sequence that is sorted by stock and keeps the input order within each stock level equals the model's sort, so every stable sort gives the same alerts |
| Inventory.StockAlertsOrder | src/hooks/useInventory.ts:41-52 | the alerts are sorted by stock, are a permutation of the mapped alerts of the products that need restocking, and keep the products' order within each stock level |
| Inventory.StockAlertsContent | src/hooks/useInventory.ts:42-50 | a product yields an alert if and only if its stock is at or below its minimum; every alert comes from such a product; an alert is critical if and only if its stock is zero |
| Inventory.StockAlertsCount | src/hooks/useInventory.ts:25-50 | with no negative minimum, the number of alerts equals the out-of-stock count plus the low-stock count |
| Inventory.AlertsExample | src/hooks/useInventory.ts:41-52 | stocks 0, 3 and 10 against a minimum of 5 give a critical alert followed by a warning, one out-of-stock and one low-stock product |
| Inventory.MatchesSearch | src/hooks/useInventory.ts:56-59 | an empty query matches every product |
| Inventory.FilteredProducts | src/hooks/useInventory.ts:54-65 | every shown product is in the list and passes both the search and the category filter; no more products are shown than listed |
| Inventory.FilteredProductsSpec | src/hooks/useInventory.ts:54-65 | a product is shown if and only if the lowered query occurs in its lowered name, SKU or material and the category filter is 'all' or its category; shown products are exactly the list products at increasing positions that match |
| Inventory.EmptySearchShowsAll | src/hooks/useInventory.ts:54-65 | an empty query with 'all' shows every product, in order |
| Inventory.SearchIgnoresCase | src/hooks/useInventory.ts:54-65 | a product whose name, SKU or material contains the query in one casing is shown when the query is typed in any casing with the same lower-case form |

## Left out

- **Timestamps and ids from the clock.** `createdAt`/`updatedAt` come from `new Date()`, and the product id comes from `Date.now()`. These read the clock, so the timestamps are not modelled. `AddProduct` takes the fresh id as a parameter, and `DeleteUndoesAdd` assumes it is unused.
- **React machinery.** `useState`, `useMemo` and `useCallback` are not modelled. The state is a class field, and each memoised view is a function of that state, or the `ComputeStats` method.
- **Search and category selection.** The hook holds the search text and the selected category as state with setters. The model takes them as parameters of `FilteredProducts`.
- **The registry passed to the statistics.** The hook receives the category list as an argument. `ComputeStats` takes it as a parameter. The call in src/pages/Index.tsx:35 passes no argument; that wiring is not modelled.
- **Floating-point arithmetic.** JavaScript numbers are doubles; prices, stock and dimensions here are unbounded integers. Rounding in `totalValue` and the comparison of a fractional stock are therefore not modelled.
- **Non-ASCII lower-casing.** `toLowerCase` is modelled on the ASCII letters only. Other characters pass through unchanged, whereas JavaScript lowers them by the Unicode case tables, which can also change the string's length. The whitespace class `\s` is modelled in full.
- **`undefined` in a partial update.** A key supplied with the value `undefined` overwrites the field in a JavaScript spread. The model's patch either supplies a value or leaves the field alone. `imageUrl` is the exception: the model can supply "no image" for it.
- **Seed data.** The mock product list and the default categories are not modelled. Both constructors take the seed as a parameter.
- **The key `__proto__`.** The label, icon and count tables (`Categories.Lookup`, `Inventory.ZeroCounts`, `Inventory.Bump`) are Dafny maps, and every string can be a key. In JavaScript they are plain objects. Assigning a string or a number to `__proto__` on a plain object calls the inherited prototype setter, which ignores the value. So a category whose id is `__proto__` never becomes a key of `categoryLabels`, `categoryIcons` or `categoryCounts`. For that one id, the model's claims do not hold in the source: "the keys are exactly the ids" (`Lookup`, `BuildLookup`), "every registered id maps to its count" (`CategoryCountsSpec`), and the sum (`CategoryCountsSumToTotal`).
- **The UI.** The components that render these views, the form validation before an add, the image upload, and currency and percentage formatting are not part of this model.
