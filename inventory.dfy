/** The inventory store of the dashboard (src/hooks/useInventory.ts): the
    product list with its add, update, delete and stock-adjust operations, and
    the three views derived from it on every read: the statistics, the
    low-stock alerts and the searched-and-filtered product list. Timestamps
    are not modelled; prices are whole cents. */
module Inventory {
  import opened Wrappers
  import opened Seqs
  import opened Text
  import Categories

  datatype Dimensions = Dimensions(width: int, height: int, depth: int)

  datatype Product = Product(
    id: string, name: string, sku: string, category: string, description: string,
    price: int, costPrice: int, stockQuantity: int, minStockLevel: int,
    imageUrl: Option<string>, dimensions: Dimensions, material: string, color: string)

  /** A `Partial<Product>`: the fields the caller supplies, each optional. */
  datatype ProductPatch = ProductPatch(
    id: Option<string>, name: Option<string>, sku: Option<string>, category: Option<string>,
    description: Option<string>, price: Option<int>, costPrice: Option<int>,
    stockQuantity: Option<int>, minStockLevel: Option<int>, imageUrl: Option<Option<string>>,
    dimensions: Option<Dimensions>, material: Option<string>, color: Option<string>)

  function ProductIds(products: seq<Product>): set<string> {
    set p | p in products :: p.id
  }

  // ---------------------------------------------------------------------------
  // Store operations
  // ---------------------------------------------------------------------------

  /** The record `addProduct` appends: the draft's fields, with the id
      overwritten by the fresh one. */
  function NewProduct(draft: Product, freshId: string): Product {
    draft.(id := freshId)
  }

  /** The patch that supplies no field. */
  const NoProductChanges := ProductPatch(
    None, None, None, None, None, None, None, None, None, None, None, None, None)

  /** `{ ...p, ...updates }`: supplied fields override, the others stay. The
      stock quantity is taken as supplied, without clamping. */
  function MergeProduct(p: Product, patch: ProductPatch): (merged: Product)
    ensures patch == NoProductChanges ==> merged == p
    ensures merged.id == if patch.id.Some? then patch.id.value else p.id
    ensures merged.stockQuantity ==
      if patch.stockQuantity.Some? then patch.stockQuantity.value else p.stockQuantity
  {
    Product(
      patch.id.GetOr(p.id), patch.name.GetOr(p.name), patch.sku.GetOr(p.sku),
      patch.category.GetOr(p.category), patch.description.GetOr(p.description),
      patch.price.GetOr(p.price), patch.costPrice.GetOr(p.costPrice),
      patch.stockQuantity.GetOr(p.stockQuantity), patch.minStockLevel.GetOr(p.minStockLevel),
      patch.imageUrl.GetOr(p.imageUrl), patch.dimensions.GetOr(p.dimensions),
      patch.material.GetOr(p.material), patch.color.GetOr(p.color))
  }

  /** `Math.max(0, quantity)`. */
  function ClampStock(quantity: int): (clamped: nat)
    ensures clamped >= quantity
    ensures clamped == 0 || clamped == quantity
  {
    if quantity < 0 then 0 else quantity
  }

  function PatchIfId(id: string, patch: ProductPatch): Product -> Product {
    (p: Product) => if p.id == id then MergeProduct(p, patch) else p
  }

  function RestockIfId(id: string, quantity: int): Product -> Product {
    (p: Product) => if p.id == id then p.(stockQuantity := ClampStock(quantity)) else p
  }

  function IdIsNot(id: string): Product -> bool {
    (p: Product) => p.id != id
  }

  /** The list after `updateProduct(id, patch)`. */
  function UpdatedProducts(products: seq<Product>, id: string, patch: ProductPatch): seq<Product> {
    Map(products, PatchIfId(id, patch))
  }

  /** The list after `deleteProduct(id)`. */
  function WithoutProduct(products: seq<Product>, id: string): seq<Product> {
    Filter(products, IdIsNot(id))
  }

  /** The list after `updateStock(id, quantity)`. */
  function Restocked(products: seq<Product>, id: string, quantity: int): seq<Product> {
    Map(products, RestockIfId(id, quantity))
  }

  /** `updateProduct` merges the patch into every record with that id, keeps
      every other record, and keeps the length and the order. A supplied
      stock quantity is taken as it is, negative or not. */
  lemma UpdateProductEffect(products: seq<Product>, id: string, patch: ProductPatch)
    ensures |UpdatedProducts(products, id, patch)| == |products|
    ensures forall i :: 0 <= i < |products| ==>
      UpdatedProducts(products, id, patch)[i] ==
        if products[i].id == id then MergeProduct(products[i], patch) else products[i]
  {
    forall i | 0 <= i < |products|
      ensures UpdatedProducts(products, id, patch)[i] == PatchIfId(id, patch)(products[i])
    {
      MapAt(products, PatchIfId(id, patch), i);
    }
  }

  /** Updating an id that no record has is a no-op. */
  lemma UpdateAbsentProduct(products: seq<Product>, id: string, patch: ProductPatch)
    requires id !in ProductIds(products)
    ensures UpdatedProducts(products, id, patch) == products
  {
    forall i | 0 <= i < |products|
      ensures PatchIfId(id, patch)(products[i]) == products[i]
    {
      assert products[i] in products;
    }
    MapFixed(products, PatchIfId(id, patch));
  }

  /** `updateStock` sets the stock of every record with that id to the
      quantity clamped at zero, changes no other field and no other record,
      and keeps the length. */
  lemma UpdateStockEffect(products: seq<Product>, id: string, quantity: int)
    ensures |Restocked(products, id, quantity)| == |products|
    ensures forall i :: 0 <= i < |products| ==>
      Restocked(products, id, quantity)[i] ==
        if products[i].id == id
        then products[i].(stockQuantity := if quantity < 0 then 0 else quantity)
        else products[i]
    ensures forall i :: 0 <= i < |products| && products[i].id == id ==>
      Restocked(products, id, quantity)[i].stockQuantity >= 0
  {
    forall i | 0 <= i < |products|
      ensures Restocked(products, id, quantity)[i] == RestockIfId(id, quantity)(products[i])
    {
      MapAt(products, RestockIfId(id, quantity), i);
    }
  }

  /** `deleteProduct` removes every record with that id and keeps every other
      record, in order; deleting twice is deleting once. */
  lemma DeleteProductEffect(products: seq<Product>, id: string)
    ensures id !in ProductIds(WithoutProduct(products, id))
    ensures forall p :: p in WithoutProduct(products, id) <==> p in products && p.id != id
    ensures |Positions(products, IdIsNot(id))| == |WithoutProduct(products, id)|
    ensures forall k :: 0 <= k < |Positions(products, IdIsNot(id))| ==>
      Positions(products, IdIsNot(id))[k] < |products| &&
      WithoutProduct(products, id)[k] == products[Positions(products, IdIsNot(id))[k]]
    ensures forall k, l :: 0 <= k < l < |Positions(products, IdIsNot(id))| ==>
      Positions(products, IdIsNot(id))[k] < Positions(products, IdIsNot(id))[l]
    ensures forall i :: 0 <= i < |products| ==>
      (i in Positions(products, IdIsNot(id)) <==> products[i].id != id)
    ensures WithoutProduct(WithoutProduct(products, id), id) == WithoutProduct(products, id)
  {
    forall p
      ensures p in WithoutProduct(products, id) <==> p in products && p.id != id
    {
      FilterMembership(products, IdIsNot(id), p);
    }
    FilterKeepsOrder(products, IdIsNot(id));
    FilterIdempotent(products, IdIsNot(id));
  }

  /** Deleting the record just added restores the list, when its id was fresh. */
  lemma DeleteUndoesAdd(products: seq<Product>, draft: Product, freshId: string)
    requires freshId !in ProductIds(products)
    ensures WithoutProduct(products + [NewProduct(draft, freshId)], freshId) == products
  {
    FilterConcat(products, [NewProduct(draft, freshId)], IdIsNot(freshId));
    FilterAll(products, IdIsNot(freshId));
  }

  predicate StockNonNegative(products: seq<Product>) {
    forall p :: p in products ==> p.stockQuantity >= 0
  }

  /** Which operations keep every stock quantity non-negative: stock
      adjustment and deletion always do, adding does for a non-negative
      draft, and a merge-update only when it supplies no negative stock. */
  lemma StockInvariant(products: seq<Product>, id: string, quantity: int, patch: ProductPatch, draft: Product, freshId: string)
    requires StockNonNegative(products)
    ensures StockNonNegative(Restocked(products, id, quantity))
    ensures StockNonNegative(WithoutProduct(products, id))
    ensures draft.stockQuantity >= 0 ==> StockNonNegative(products + [NewProduct(draft, freshId)])
    ensures (patch.stockQuantity.None? || patch.stockQuantity.value >= 0) ==>
      StockNonNegative(UpdatedProducts(products, id, patch))
  {
    UpdateStockEffect(products, id, quantity);
    UpdateProductEffect(products, id, patch);
    forall p | p in Restocked(products, id, quantity)
      ensures p.stockQuantity >= 0
    {
      var i :| 0 <= i < |products| && Restocked(products, id, quantity)[i] == p;
      assert products[i] in products;
    }
    if patch.stockQuantity.None? || patch.stockQuantity.value >= 0 {
      forall p | p in UpdatedProducts(products, id, patch)
        ensures p.stockQuantity >= 0
      {
        var i :| 0 <= i < |products| && UpdatedProducts(products, id, patch)[i] == p;
        assert products[i] in products;
      }
    }
  }

  /** The product list held by the store. */
  class InventoryStore {
    var products: seq<Product>

    constructor (seed: seq<Product>)
      ensures products == seed
    {
      products := seed;
    }

    /** `addProduct`: append one record under the fresh id and return it. */
    method AddProduct(draft: Product, freshId: string) returns (created: Product)
      modifies this
      ensures created == NewProduct(draft, freshId)
      ensures products == old(products) + [created]
    {
      created := NewProduct(draft, freshId);
      products := products + [created];
    }

    /** `updateProduct`: merge `patch` into every record whose id is `id`. */
    method UpdateProduct(id: string, patch: ProductPatch)
      modifies this
      ensures products == UpdatedProducts(old(products), id, patch)
    {
      products := UpdatedProducts(products, id, patch);
    }

    /** `deleteProduct`: drop every record whose id is `id`. */
    method DeleteProduct(id: string)
      modifies this
      ensures products == WithoutProduct(old(products), id)
      ensures id !in ProductIds(products)
    {
      products := WithoutProduct(products, id);
      DeleteProductEffect(old(products), id);
    }

    /** `updateStock`: set the stock of every record whose id is `id` to
        `Math.max(0, quantity)`. */
    method UpdateStock(id: string, quantity: int)
      modifies this
      ensures products == Restocked(old(products), id, quantity)
      ensures |products| == |old(products)|
    {
      products := Restocked(products, id, quantity);
    }
  }

  // ---------------------------------------------------------------------------
  // Statistics
  // ---------------------------------------------------------------------------

  /** The three-way stock status, as the product card shows it. */
  datatype StockStatus = InStock | LowStock | OutOfStock

  function Status(p: Product): (status: StockStatus)
    ensures status == OutOfStock <==> p.stockQuantity == 0
    ensures p.minStockLevel >= 0 ==> (status != InStock <==> NeedsRestock(p))
  {
    if p.stockQuantity == 0 then OutOfStock
    else if p.stockQuantity <= p.minStockLevel then LowStock
    else InStock
  }

  predicate IsOutOfStock(p: Product) {
    Status(p) == OutOfStock
  }

  predicate IsLowStock(p: Product) {
    Status(p) == LowStock
  }

  predicate IsInStock(p: Product) {
    Status(p) == InStock
  }

  /** Every product has exactly one status, so the three counts add up to the
      number of products and no product is both low and out of stock. */
  lemma {:induction false} StatusCounts(products: seq<Product>)
    ensures |Filter(products, IsOutOfStock)| + |Filter(products, IsLowStock)| + |Filter(products, IsInStock)| == |products|
    ensures |Filter(products, IsOutOfStock)| + |Filter(products, IsLowStock)| <= |products|
  {
    if products != [] {
      StatusCounts(products[1..]);
    }
  }

  /** A category-count entry: a JavaScript number that is either a count or,
      after `undefined++` on a key that was never set, `NaN`. */
  datatype Tally = Count(n: nat) | NotANumber

  /** `counts[key]++`. */
  function Bump(counts: map<string, Tally>, key: string): (bumped: map<string, Tally>)
    ensures bumped.Keys == counts.Keys + {key}
    ensures forall k :: k in counts && k != key ==> bumped[k] == counts[k]
    ensures key in counts && counts[key].Count? ==> bumped[key] == Count(counts[key].n + 1)
    ensures key !in counts || counts[key] == NotANumber ==> bumped[key] == NotANumber
  {
    if key !in counts then counts[key := NotANumber]
    else match counts[key]
      case Count(n) => counts[key := Count(n + 1)]
      case NotANumber => counts
  }

  /** The table before the pass over the products: every registered id at 0. */
  function ZeroCounts(categories: seq<Categories.Category>): map<string, Tally> {
    map k | k in Categories.Ids(categories) :: Count(0)
  }

  /** The table after bumping, in order, the category of each product. */
  function Tallies(init: map<string, Tally>, products: seq<Product>): map<string, Tally> {
    if products == [] then init
    else Bump(Tallies(init, products[..|products| - 1]), products[|products| - 1].category)
  }

  function CategoryCounts(categories: seq<Categories.Category>, products: seq<Product>): map<string, Tally> {
    Tallies(ZeroCounts(categories), products)
  }

  function InCategory(k: string): Product -> bool {
    (p: Product) => p.category == k
  }

  /** `price * stockQuantity` summed over the products. */
  function TotalValue(products: seq<Product>): int {
    if products == [] then 0
    else
      var last := products[|products| - 1];
      TotalValue(products[..|products| - 1]) + last.price * last.stockQuantity
  }

  datatype InventoryStats = InventoryStats(
    totalProducts: nat, totalValue: int, lowStockCount: nat, outOfStockCount: nat,
    categoryCounts: map<string, Tally>)

  /** The `stats` memo: zero a count for every registered category, then one
      pass over the products accumulating the category counts, the total
      value and the out-of-stock and low-stock counts. */
  method ComputeStats(products: seq<Product>, categories: seq<Categories.Category>) returns (stats: InventoryStats)
    ensures stats.totalProducts == |products|
    ensures stats.totalValue == TotalValue(products)
    ensures stats.outOfStockCount == |Filter(products, IsOutOfStock)|
    ensures stats.lowStockCount == |Filter(products, IsLowStock)|
    ensures stats.categoryCounts == CategoryCounts(categories, products)
  {
    var categoryCounts: map<string, Tally> := map[];
    var c := 0;
    while c < |categories|
      invariant 0 <= c <= |categories|
      invariant categoryCounts.Keys == Categories.Ids(categories[..c])
      invariant forall k :: k in categoryCounts ==> categoryCounts[k] == Count(0)
    {
      categoryCounts := categoryCounts[categories[c].id := Count(0)];
      assert categories[..c + 1] == categories[..c] + [categories[c]];
      c := c + 1;
    }
    assert categories[..c] == categories;
    assert categoryCounts == ZeroCounts(categories);

    var totalValue := 0;
    var lowStockCount := 0;
    var outOfStockCount := 0;
    var i := 0;
    while i < |products|
      invariant 0 <= i <= |products|
      invariant categoryCounts == Tallies(ZeroCounts(categories), products[..i])
      invariant totalValue == TotalValue(products[..i])
      invariant outOfStockCount == |Filter(products[..i], IsOutOfStock)|
      invariant lowStockCount == |Filter(products[..i], IsLowStock)|
    {
      var product := products[i];
      categoryCounts := Bump(categoryCounts, product.category);
      totalValue := totalValue + product.price * product.stockQuantity;
      if product.stockQuantity == 0 {
        outOfStockCount := outOfStockCount + 1;
      } else if product.stockQuantity <= product.minStockLevel {
        lowStockCount := lowStockCount + 1;
      }
      StatsStep(ZeroCounts(categories), products, i);
      i := i + 1;
    }
    assert products[..i] == products;
    stats := InventoryStats(|products|, totalValue, lowStockCount, outOfStockCount, categoryCounts);
  }

  /** What one more product adds to each accumulator of `ComputeStats`. */
  lemma StatsStep(init: map<string, Tally>, products: seq<Product>, i: nat)
    requires i < |products|
    ensures Tallies(init, products[..i + 1]) == Bump(Tallies(init, products[..i]), products[i].category)
    ensures TotalValue(products[..i + 1]) ==
      TotalValue(products[..i]) + products[i].price * products[i].stockQuantity
    ensures |Filter(products[..i + 1], IsOutOfStock)| ==
      |Filter(products[..i], IsOutOfStock)| + (if products[i].stockQuantity == 0 then 1 else 0)
    ensures |Filter(products[..i + 1], IsLowStock)| == |Filter(products[..i], IsLowStock)| +
      (if products[i].stockQuantity != 0 && products[i].stockQuantity <= products[i].minStockLevel then 1 else 0)
  {
    assert products[..i + 1] == products[..i] + [products[i]];
    assert products[..i + 1][..i] == products[..i];
    FilterSnoc(products[..i], products[i], IsOutOfStock);
    FilterSnoc(products[..i], products[i], IsLowStock);
  }

  /** A key that starts with a count gains one per product in that category. */
  lemma {:induction false} TalliesRegistered(init: map<string, Tally>, products: seq<Product>, k: string)
    requires k in init && init[k].Count?
    ensures k in Tallies(init, products)
    ensures Tallies(init, products)[k] == Count(init[k].n + |Filter(products, InCategory(k))|)
  {
    if products != [] {
      var n := |products| - 1;
      var front, last := products[..n], products[n];
      TalliesRegistered(init, front, k);
      assert products == front + [last];
      FilterSnoc(front, last, InCategory(k));
    }
  }

  /** A key that does not start in the table appears exactly when some
      product has that category. */
  lemma {:induction false} UnregisteredKeyAppears(init: map<string, Tally>, products: seq<Product>, k: string)
    requires k !in init
    ensures k in Tallies(init, products) <==> |Filter(products, InCategory(k))| > 0
  {
    if products != [] {
      var n := |products| - 1;
      var front, last := products[..n], products[n];
      UnregisteredKeyAppears(init, front, k);
      assert Tallies(init, products) == Bump(Tallies(init, front), last.category);
      assert products == front + [last];
      FilterSnoc(front, last, InCategory(k));
    }
  }

  /** A key that does not start in the table holds `NaN` once it appears. */
  lemma {:induction false} UnregisteredKeyIsNaN(init: map<string, Tally>, products: seq<Product>, k: string)
    requires k !in init
    ensures k in Tallies(init, products) ==> Tallies(init, products)[k] == NotANumber
  {
    if products != [] {
      var n := |products| - 1;
      UnregisteredKeyIsNaN(init, products[..n], k);
      assert Tallies(init, products) == Bump(Tallies(init, products[..n]), products[n].category);
    }
  }

  /** A key that does not start in the table appears exactly when some
      product has that category, and then holds `NaN`. */
  lemma TalliesUnregistered(init: map<string, Tally>, products: seq<Product>, k: string)
    requires k !in init
    ensures k in Tallies(init, products) <==> |Filter(products, InCategory(k))| > 0
    ensures k in Tallies(init, products) ==> Tallies(init, products)[k] == NotANumber
  {
    UnregisteredKeyAppears(init, products, k);
    UnregisteredKeyIsNaN(init, products, k);
  }

  /** The `categoryCounts` of the statistics: every registered id is a key
      holding the number of products in that category; an unregistered
      category is a key exactly when some product has it, and holds `NaN`. */
  lemma CategoryCountsSpec(categories: seq<Categories.Category>, products: seq<Product>, k: string)
    ensures k in Categories.Ids(categories) ==>
      k in CategoryCounts(categories, products) &&
      CategoryCounts(categories, products)[k] == Count(|Filter(products, InCategory(k))|)
    ensures k !in Categories.Ids(categories) ==>
      (k in CategoryCounts(categories, products) <==> exists p :: p in products && p.category == k)
    ensures k !in Categories.Ids(categories) && k in CategoryCounts(categories, products) ==>
      CategoryCounts(categories, products)[k] == NotANumber
  {
    if k in Categories.Ids(categories) {
      TalliesRegistered(ZeroCounts(categories), products, k);
    } else {
      TalliesUnregistered(ZeroCounts(categories), products, k);
    }
    var matching := Filter(products, InCategory(k));
    if |matching| > 0 {
      assert matching[0] in matching;
    }
    if p :| p in products && p.category == k {
      FilterMembership(products, InCategory(k), p);
    }
  }

  /** The counts in `counts` under the ids `ids`, `NaN` and missing keys
      counting as nothing. */
  function SumCounts(counts: map<string, Tally>, ids: seq<string>): nat {
    if ids == [] then 0
    else
      (if ids[0] in counts && counts[ids[0]].Count? then counts[ids[0]].n else 0)
      + SumCounts(counts, ids[1..])
  }

  /** The number of products in each of the categories `ids`, summed. */
  function CountPerId(ids: seq<string>, products: seq<Product>): nat {
    if ids == [] then 0 else |Filter(products, InCategory(ids[0]))| + CountPerId(ids[1..], products)
  }

  /** How many times `k` is listed in `ids`. */
  function Occurrences(ids: seq<string>, k: string): nat {
    if ids == [] then 0 else (if ids[0] == k then 1 else 0) + Occurrences(ids[1..], k)
  }

  lemma {:induction false} CountPerIdCons(ids: seq<string>, p: Product, products: seq<Product>)
    ensures CountPerId(ids, [p] + products) == CountPerId(ids, products) + Occurrences(ids, p.category)
  {
    if ids != [] {
      CountPerIdCons(ids[1..], p, products);
      assert ([p] + products)[1..] == products;
    }
  }

  lemma {:induction false} OccursOnce(ids: seq<string>, k: string)
    requires forall i, j :: 0 <= i < j < |ids| ==> ids[i] != ids[j]
    requires k in ids
    ensures Occurrences(ids, k) == 1
  {
    if ids[0] == k {
      NotListed(ids[1..], k);
    } else {
      OccursOnce(ids[1..], k);
    }
  }

  lemma {:induction false} NotListed(ids: seq<string>, k: string)
    requires k !in ids
    ensures Occurrences(ids, k) == 0
  {
    if ids != [] {
      NotListed(ids[1..], k);
    }
  }

  /** When every product's category is listed once in `ids`, the per-id
      counts partition the products. */
  lemma {:induction false} CountPerIdPartitions(ids: seq<string>, products: seq<Product>)
    requires forall i, j :: 0 <= i < j < |ids| ==> ids[i] != ids[j]
    requires forall p :: p in products ==> p.category in ids
    ensures CountPerId(ids, products) == |products|
  {
    if products == [] {
      ZeroPerId(ids);
    } else {
      var p, rest := products[0], products[1..];
      assert products == [p] + rest;
      CountPerIdPartitions(ids, rest);
      CountPerIdCons(ids, p, rest);
      OccursOnce(ids, p.category);
    }
  }

  lemma {:induction false} ZeroPerId(ids: seq<string>)
    ensures CountPerId(ids, []) == 0
  {
    if ids != [] {
      ZeroPerId(ids[1..]);
    }
  }

  lemma {:induction false} SumCountsPerId(categories: seq<Categories.Category>, products: seq<Product>, ids: seq<string>)
    requires forall k :: k in ids ==> k in Categories.Ids(categories)
    ensures SumCounts(CategoryCounts(categories, products), ids) == CountPerId(ids, products)
  {
    if ids != [] {
      CategoryCountsSpec(categories, products, ids[0]);
      SumCountsPerId(categories, products, ids[1..]);
    }
  }

  /** When every product's category is registered, the category counts, read
      once per registered id, add up to the number of products. */
  lemma CategoryCountsSumToTotal(categories: seq<Categories.Category>, products: seq<Product>, ids: seq<string>)
    requires forall i, j :: 0 <= i < j < |ids| ==> ids[i] != ids[j]
    requires forall k :: k in ids <==> k in Categories.Ids(categories)
    requires forall p :: p in products ==> p.category in Categories.Ids(categories)
    ensures SumCounts(CategoryCounts(categories, products), ids) == |products|
  {
    SumCountsPerId(categories, products, ids);
    CountPerIdPartitions(ids, products);
  }

  // ---------------------------------------------------------------------------
  // Stock alerts
  // ---------------------------------------------------------------------------

  datatype Severity = Warning | Critical

  datatype StockAlert = StockAlert(
    productId: string, productName: string, currentStock: int, minStockLevel: int,
    severity: Severity)

  predicate NeedsRestock(p: Product) {
    p.stockQuantity <= p.minStockLevel
  }

  function ToAlert(p: Product): (alert: StockAlert)
    ensures alert.productId == p.id && alert.productName == p.name
    ensures alert.currentStock == p.stockQuantity && alert.minStockLevel == p.minStockLevel
    ensures alert.severity == Critical <==> Status(p) == OutOfStock
    ensures NeedsRestock(p) && alert.severity == Warning ==> Status(p) == LowStock
  {
    StockAlert(p.id, p.name, p.stockQuantity, p.minStockLevel,
               if p.stockQuantity == 0 then Critical else Warning)
  }

  predicate SortedByStock(alerts: seq<StockAlert>) {
    forall i, j :: 0 <= i < j < |alerts| ==> alerts[i].currentStock <= alerts[j].currentStock
  }

  function HasStock(v: int): StockAlert -> bool {
    (a: StockAlert) => a.currentStock == v
  }

  /** Insert `a` in front of the first alert whose stock is not below its own. */
  function InsertByStock(a: StockAlert, sorted: seq<StockAlert>): (r: seq<StockAlert>)
    ensures multiset(r) == multiset(sorted) + multiset{a}
  {
    if sorted == [] || a.currentStock <= sorted[0].currentStock then [a] + sorted
    else
      assert sorted == [sorted[0]] + sorted[1..];
      [sorted[0]] + InsertByStock(a, sorted[1..])
  }

  /** `alerts.sort((a, b) => a.currentStock - b.currentStock)`, as a stable
      insertion sort. */
  function SortByStock(alerts: seq<StockAlert>): (r: seq<StockAlert>)
    ensures multiset(r) == multiset(alerts)
  {
    if alerts == [] then []
    else
      assert alerts == [alerts[0]] + alerts[1..];
      InsertByStock(alerts[0], SortByStock(alerts[1..]))
  }

  /** The `stockAlerts` memo. */
  function StockAlerts(products: seq<Product>): (alerts: seq<StockAlert>)
    ensures SortedByStock(alerts)
    ensures multiset(alerts) == multiset(Map(Filter(products, NeedsRestock), ToAlert))
    ensures |alerts| <= |products|
  {
    var unsorted := Map(Filter(products, NeedsRestock), ToAlert);
    SortIsSorted(unsorted);
    assert |SortByStock(unsorted)| == |multiset(unsorted)| == |unsorted|;
    SortByStock(unsorted)
  }

  /** Every alert of `InsertByStock(a, sorted)` is `a` or an alert of `sorted`. */
  lemma InsertedFrom(a: StockAlert, sorted: seq<StockAlert>, x: StockAlert)
    requires x in InsertByStock(a, sorted)
    ensures x == a || x in sorted
  {
    assert x in multiset(InsertByStock(a, sorted));
  }

  lemma {:induction false} InsertKeepsSorted(a: StockAlert, sorted: seq<StockAlert>)
    requires SortedByStock(sorted)
    ensures SortedByStock(InsertByStock(a, sorted))
  {
    if sorted != [] && a.currentStock > sorted[0].currentStock {
      var head, rest := sorted[0], sorted[1..];
      var tail := InsertByStock(a, rest);
      InsertKeepsSorted(a, rest);
      var r := [head] + tail;
      assert InsertByStock(a, sorted) == r;
      forall i, j | 0 <= i < j < |r|
        ensures r[i].currentStock <= r[j].currentStock
      {
        if i == 0 {
          var x := tail[j - 1];
          assert x in tail;
          InsertedFrom(a, rest, x);
          if x != a {
            var m :| 0 <= m < |rest| && rest[m] == x;
            assert sorted[m + 1] == x;
          }
        } else {
          assert r[i] == tail[i - 1] && r[j] == tail[j - 1];
        }
      }
    }
  }

  lemma {:induction false} SortIsSorted(alerts: seq<StockAlert>)
    ensures SortedByStock(SortByStock(alerts))
  {
    if alerts != [] {
      SortIsSorted(alerts[1..]);
      InsertKeepsSorted(alerts[0], SortByStock(alerts[1..]));
    }
  }

  lemma FilterCons(a: StockAlert, rest: seq<StockAlert>, v: int)
    ensures Filter([a] + rest, HasStock(v)) == (if a.currentStock == v then [a] else []) + Filter(rest, HasStock(v))
  {
    assert ([a] + rest)[0] == a;
    assert ([a] + rest)[1..] == rest;
  }

  /** Inserting keeps, among the alerts of any one stock level, the order of
      `a` followed by `sorted`. */
  lemma {:induction false} InsertIsStable(a: StockAlert, sorted: seq<StockAlert>, v: int)
    ensures Filter(InsertByStock(a, sorted), HasStock(v)) == Filter([a] + sorted, HasStock(v))
  {
    if sorted != [] && a.currentStock > sorted[0].currentStock {
      var head, tail := sorted[0], sorted[1..];
      var fa := if a.currentStock == v then [a] else [];
      var fh := if head.currentStock == v then [head] else [];
      assert fa == [] || fh == [];
      assert sorted == [head] + tail;
      calc {
        Filter(InsertByStock(a, sorted), HasStock(v));
        Filter([head] + InsertByStock(a, tail), HasStock(v));
        { FilterCons(head, InsertByStock(a, tail), v); }
        fh + Filter(InsertByStock(a, tail), HasStock(v));
        { InsertIsStable(a, tail, v); }
        fh + Filter([a] + tail, HasStock(v));
        { FilterCons(a, tail, v); }
        fh + (fa + Filter(tail, HasStock(v)));
        fa + (fh + Filter(tail, HasStock(v)));
        { FilterCons(head, tail, v); }
        fa + Filter(sorted, HasStock(v));
        { FilterCons(a, sorted, v); }
        Filter([a] + sorted, HasStock(v));
      }
    }
  }

  /** The sort is stable: the alerts of any one stock level keep their order. */
  lemma {:induction false} SortIsStable(alerts: seq<StockAlert>, v: int)
    ensures Filter(SortByStock(alerts), HasStock(v)) == Filter(alerts, HasStock(v))
  {
    if alerts != [] {
      var head, tail := alerts[0], alerts[1..];
      SortIsStable(tail, v);
      InsertIsStable(head, SortByStock(tail), v);
      FilterCons(head, SortByStock(tail), v);
      FilterCons(head, tail, v);
      assert alerts == [head] + tail;
    }
  }

  /** A sorted sequence that has an alert at stock level `v` starts at or below `v`. */
  lemma FirstAtMost(t: seq<StockAlert>, v: int)
    requires SortedByStock(t) && Filter(t, HasStock(v)) != []
    ensures t != [] && t[0].currentStock <= v
  {
    var f := Filter(t, HasStock(v));
    assert f[0] in f;
    var j :| 0 <= j < |t| && t[j] == f[0];
  }

  /** The stock level of a sequence's first alert is not empty. */
  lemma FirstLevelNonEmpty(r: seq<StockAlert>)
    requires r != []
    ensures Filter(r, HasStock(r[0].currentStock)) == [r[0]] + Filter(r[1..], HasStock(r[0].currentStock))
  {
    FilterCons(r[0], r[1..], r[0].currentStock);
    assert r == [r[0]] + r[1..];
  }

  lemma CancelFront<T>(front: seq<T>, x: seq<T>, y: seq<T>)
    requires front + x == front + y
    ensures x == y
  {
    assert x == (front + x)[|front|..];
    assert y == (front + y)[|front|..];
  }

  /** Sequences with the same first alert that agree at stock level `u`
      still agree there once that alert is dropped. */
  lemma TailsAgree(r: seq<StockAlert>, t: seq<StockAlert>, u: int)
    requires r != [] && t != [] && r[0] == t[0]
    requires Filter(r, HasStock(u)) == Filter(t, HasStock(u))
    ensures Filter(r[1..], HasStock(u)) == Filter(t[1..], HasStock(u))
  {
    FilterCons(r[0], r[1..], u);
    FilterCons(t[0], t[1..], u);
    assert r == [r[0]] + r[1..] && t == [t[0]] + t[1..];
    var front := if r[0].currentStock == u then [r[0]] else [];
    CancelFront(front, Filter(r[1..], HasStock(u)), Filter(t[1..], HasStock(u)));
  }

  /** Two sequences sorted by stock that agree, stock level by stock level,
      on the order of their alerts are equal. */
  lemma {:induction false} SortedByStockUnique(r: seq<StockAlert>, t: seq<StockAlert>)
    requires SortedByStock(r) && SortedByStock(t)
    requires forall v :: Filter(r, HasStock(v)) == Filter(t, HasStock(v))
    ensures r == t
    decreases |r|
  {
    if r != [] {
      FirstLevelNonEmpty(r);
      FirstAtMost(t, r[0].currentStock);
    }
    if t != [] {
      FirstLevelNonEmpty(t);
      FirstAtMost(r, t[0].currentStock);
    }
    if r != [] {
      var v := r[0].currentStock;
      assert t[0].currentStock == v;
      var fr, ft := Filter(r, HasStock(v)), Filter(t, HasStock(v));
      assert fr == ft;
      assert r[0] == fr[0] == ft[0] == t[0];
      forall u
        ensures Filter(r[1..], HasStock(u)) == Filter(t[1..], HasStock(u))
      {
        TailsAgree(r, t, u);
      }
      SortedByStockUnique(r[1..], t[1..]);
      assert r == [r[0]] + r[1..] && t == [t[0]] + t[1..];
    }
  }

  /** Any stable sort by stock gives the result `SortByStock` gives: a
      sequence sorted by stock in which the alerts of each stock level keep
      their input order is `SortByStock` of the input. */
  lemma StableSortIsUnique(alerts: seq<StockAlert>, r: seq<StockAlert>)
    requires SortedByStock(r)
    requires forall v :: Filter(r, HasStock(v)) == Filter(alerts, HasStock(v))
    ensures r == SortByStock(alerts)
  {
    SortIsSorted(alerts);
    forall v
      ensures Filter(r, HasStock(v)) == Filter(SortByStock(alerts), HasStock(v))
    {
      SortIsStable(alerts, v);
    }
    SortedByStockUnique(r, SortByStock(alerts));
  }

  /** The alerts are sorted by stock, are a permutation of the alerts of the
      products that need restocking, and keep the products' order among
      alerts of equal stock. */
  lemma StockAlertsOrder(products: seq<Product>)
    ensures SortedByStock(StockAlerts(products))
    ensures multiset(StockAlerts(products)) == multiset(Map(Filter(products, NeedsRestock), ToAlert))
    ensures forall v :: (Filter(StockAlerts(products), HasStock(v)) ==
      Filter(Map(Filter(products, NeedsRestock), ToAlert), HasStock(v)))
  {
    var unsorted := Map(Filter(products, NeedsRestock), ToAlert);
    SortIsSorted(unsorted);
    forall v
      ensures Filter(StockAlerts(products), HasStock(v)) == Filter(unsorted, HasStock(v))
    {
      SortIsStable(unsorted, v);
    }
  }

  /** A product yields an alert exactly when its stock is at or below its
      minimum; every alert comes from such a product; an alert is critical
      exactly when its stock is zero. */
  lemma StockAlertsContent(products: seq<Product>)
    ensures forall p :: p in products ==> (ToAlert(p) in StockAlerts(products) <==> NeedsRestock(p))
    ensures forall a :: a in StockAlerts(products) ==>
      exists p :: p in products && NeedsRestock(p) && a == ToAlert(p)
    ensures forall a :: a in StockAlerts(products) ==>
      a.currentStock <= a.minStockLevel && (a.severity == Critical <==> a.currentStock == 0)
  {
    var needing := Filter(products, NeedsRestock);
    var unsorted := Map(needing, ToAlert);
    assert multiset(StockAlerts(products)) == multiset(unsorted);
    forall a
      ensures a in StockAlerts(products) <==> exists p :: p in needing && ToAlert(p) == a
    {
      assert a in StockAlerts(products) <==> a in multiset(unsorted);
      MapMembership(needing, ToAlert, a);
    }
    forall p | p in products
      ensures ToAlert(p) in StockAlerts(products) <==> NeedsRestock(p)
    {
      FilterMembership(products, NeedsRestock, p);
    }
  }

  /** With no negative minimum, there is one alert per product that is out of
      stock or low on stock, so the alert count is the sum of those two
      statistics. */
  lemma StockAlertsCount(products: seq<Product>)
    requires forall p :: p in products ==> p.minStockLevel >= 0
    ensures |StockAlerts(products)| == |Filter(products, IsOutOfStock)| + |Filter(products, IsLowStock)|
  {
    var unsorted := Map(Filter(products, NeedsRestock), ToAlert);
    assert |StockAlerts(products)| == |multiset(unsorted)| == |unsorted|;
    FilterSplit(products, NeedsRestock, IsOutOfStock, IsLowStock);
  }

  /** The worked example: products with stock 0, 3 and 10 against a minimum
      of 5 give a critical alert then a warning, one product out of stock and
      one low on stock. */
  lemma AlertsExample(a: Product, b: Product, c: Product)
    requires a.stockQuantity == 0 && b.stockQuantity == 3 && c.stockQuantity == 10
    requires a.minStockLevel == 5 && b.minStockLevel == 5 && c.minStockLevel == 5
    ensures StockAlerts([a, b, c]) == [ToAlert(a), ToAlert(b)]
    ensures ToAlert(a).severity == Critical && ToAlert(b).severity == Warning
    ensures |Filter([a, b, c], IsOutOfStock)| == 1 && |Filter([a, b, c], IsLowStock)| == 1
  {
    var s := [a, b, c];
    assert s == [a] + [b, c] && [b, c] == [b] + [c] && [c] == [c] + [];
    ExampleFilter(a, b, c, NeedsRestock);
    assert Filter(s, NeedsRestock) == [a, b];
    ExampleFilter(a, b, c, IsOutOfStock);
    ExampleFilter(a, b, c, IsLowStock);
    assert [a, b] == [a] + [b];
    assert Map([a, b], ToAlert) == [ToAlert(a), ToAlert(b)];
    var alerts := [ToAlert(a), ToAlert(b)];
    assert alerts[1..] == [ToAlert(b)];
    assert SortByStock([ToAlert(b)]) == [ToAlert(b)];
  }

  lemma ExampleFilter(a: Product, b: Product, c: Product, p: Product -> bool)
    ensures Filter([a, b, c], p) ==
      (if p(a) then [a] else []) + (if p(b) then [b] else []) + (if p(c) then [c] else [])
  {
    var fa := if p(a) then [a] else [];
    var fb := if p(b) then [b] else [];
    var fc := if p(c) then [c] else [];
    assert [a, b, c][1..] == [b, c] && [b, c][1..] == [c] && [c][1..] == [];
    assert Filter([c], p) == fc + Filter([], p) == fc;
    assert Filter([b, c], p) == fb + fc;
    assert Filter([a, b, c], p) == fa + (fb + fc);
  }

  // ---------------------------------------------------------------------------
  // Search and category filter
  // ---------------------------------------------------------------------------

  /** The query, lowered, occurs in the lowered name, SKU or material. */
  predicate MatchesSearch(p: Product, searchQuery: string): (matches: bool)
    ensures searchQuery == [] ==> matches
  {
    var needle := ToLower(searchQuery);
    Contains(ToLower(p.name), needle) || Contains(ToLower(p.sku), needle)
      || Contains(ToLower(p.material), needle)
  }

  /** `'all'` selects every category; any other value selects one id. */
  predicate MatchesCategory(p: Product, selectedCategory: string) {
    selectedCategory == "all" || p.category == selectedCategory
  }

  function Matches(searchQuery: string, selectedCategory: string): Product -> bool {
    (p: Product) => MatchesSearch(p, searchQuery) && MatchesCategory(p, selectedCategory)
  }

  /** The `filteredProducts` memo. */
  function FilteredProducts(products: seq<Product>, searchQuery: string, selectedCategory: string): (shown: seq<Product>)
    ensures |shown| <= |products|
    ensures forall p :: p in shown ==>
      p in products && MatchesSearch(p, searchQuery) && MatchesCategory(p, selectedCategory)
  {
    Filter(products, Matches(searchQuery, selectedCategory))
  }

  /** The view holds exactly the matching products, at their positions in the
      list, in the list's order. */
  lemma FilteredProductsSpec(products: seq<Product>, searchQuery: string, selectedCategory: string)
    ensures forall p :: p in FilteredProducts(products, searchQuery, selectedCategory) <==>
      p in products && MatchesSearch(p, searchQuery) && MatchesCategory(p, selectedCategory)
    ensures |Positions(products, Matches(searchQuery, selectedCategory))| ==
      |FilteredProducts(products, searchQuery, selectedCategory)|
    ensures forall k :: 0 <= k < |Positions(products, Matches(searchQuery, selectedCategory))| ==>
      Positions(products, Matches(searchQuery, selectedCategory))[k] < |products| &&
      FilteredProducts(products, searchQuery, selectedCategory)[k] ==
        products[Positions(products, Matches(searchQuery, selectedCategory))[k]]
    ensures forall k, l :: 0 <= k < l < |Positions(products, Matches(searchQuery, selectedCategory))| ==>
      Positions(products, Matches(searchQuery, selectedCategory))[k] <
        Positions(products, Matches(searchQuery, selectedCategory))[l]
    ensures forall i :: 0 <= i < |products| ==>
      (i in Positions(products, Matches(searchQuery, selectedCategory)) <==>
        MatchesSearch(products[i], searchQuery) && MatchesCategory(products[i], selectedCategory))
  {
    forall p
      ensures p in FilteredProducts(products, searchQuery, selectedCategory) <==>
        p in products && MatchesSearch(p, searchQuery) && MatchesCategory(p, selectedCategory)
    {
      FilterMembership(products, Matches(searchQuery, selectedCategory), p);
    }
    FilterKeepsOrder(products, Matches(searchQuery, selectedCategory));
  }

  /** An empty query with category `'all'` shows every product, in order. */
  lemma EmptySearchShowsAll(products: seq<Product>)
    ensures FilteredProducts(products, "", "all") == products
  {
    forall p | p in products
      ensures Matches("", "all")(p)
    {
      ContainsEmpty(ToLower(p.name));
    }
    FilterAll(products, Matches("", "all"));
  }

  /** Search ignores case: a product whose SKU, name or material contains the
      query in any casing is shown for the query typed in any other casing. */
  lemma SearchIgnoresCase(products: seq<Product>, p: Product, typed: string, stored: string, selectedCategory: string)
    requires p in products && MatchesCategory(p, selectedCategory)
    requires ToLower(typed) == ToLower(stored)
    requires Contains(p.sku, stored) || Contains(p.name, stored) || Contains(p.material, stored)
    ensures p in FilteredProducts(products, typed, selectedCategory)
  {
    if Contains(p.sku, stored) {
      LowerKeepsOccurrence(p.sku, stored);
    } else if Contains(p.name, stored) {
      LowerKeepsOccurrence(p.name, stored);
    } else {
      LowerKeepsOccurrence(p.material, stored);
    }
    FilterMembership(products, Matches(typed, selectedCategory), p);
  }
}
