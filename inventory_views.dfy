/**
 * The inventory views: the staff product list (search, category and price
 * filters, stock counts, price range for the slider, the delete action and
 * the edit form attached to each product) and the public catalog (the same
 * filters with a description search, and a sort chosen by `sort`).
 *
 * Money is in cents and stock in hundredths of a unit: both columns are
 * decimals with two places.
 */
module InventoryViews {
  import opened Wrappers
  import opened Text
  import opened Seqs

  datatype Category = Category(id: int, name: string)

  datatype Product = Product(
    pk: nat,
    name: string,
    category: Option<Category>,
    description: string,
    price: int,
    isNew: bool,
    stock: int)

  /**
   * The filter parameters after the view's truthiness tests: an empty
   * `search` is no search, and an absent or empty `category`, `price_min` or
   * `price_max` is `None`.
   */
  datatype ProductQuery = ProductQuery(search: string, category: Option<int>, priceMin: Option<int>, priceMax: Option<int>)

  // ---------------------------------------------------------------------
  // Filters
  // ---------------------------------------------------------------------

  /** `Q(name__icontains=q) | Q(category__name__icontains=q)`; a product without category has no category name. */
  predicate MatchesSearch(p: Product, q: string) {
    IContains(p.name, q) || (p.category.Some? && IContains(p.category.value.name, q))
  }

  /** The catalog search: the same, plus `Q(description__icontains=q)`. */
  predicate MatchesCatalogSearch(p: Product, q: string) {
    IContains(p.name, q) || IContains(p.description, q) || (p.category.Some? && IContains(p.category.value.name, q))
  }

  predicate InCategory(p: Product, id: int) {
    p.category.Some? && p.category.value.id == id
  }

  // One step of the chain each: the condition a `.filter(...)` call applies.
  predicate SearchStep(p: Product, q: ProductQuery, catalog: bool) {
    if catalog then MatchesCatalogSearch(p, q.search) else MatchesSearch(p, q.search)
  }
  predicate CategoryStep(p: Product, q: ProductQuery) { q.category.Some? && InCategory(p, q.category.value) }
  predicate MinStep(p: Product, q: ProductQuery) { q.priceMin.Some? && q.priceMin.value <= p.price }
  predicate MaxStep(p: Product, q: ProductQuery) { q.priceMax.Some? && p.price <= q.priceMax.value }

  // The conditions of the first one, two and three steps together.
  predicate UpToSearch(p: Product, q: ProductQuery, catalog: bool) { q.search != "" ==> SearchStep(p, q, catalog) }
  predicate UpToCategory(p: Product, q: ProductQuery, catalog: bool) {
    UpToSearch(p, q, catalog) && (q.category.Some? ==> CategoryStep(p, q))
  }
  predicate UpToMin(p: Product, q: ProductQuery, catalog: bool) {
    UpToCategory(p, q, catalog) && (q.priceMin.Some? ==> MinStep(p, q))
  }

  /** Every condition the query turns on holds of `p`: search, category and the inclusive price bounds. */
  predicate Selected(p: Product, q: ProductQuery, catalog: bool) {
    UpToMin(p, q, catalog) && (q.priceMax.Some? ==> MaxStep(p, q))
  }

  function FirstTwoSteps(all: seq<Product>, q: ProductQuery, catalog: bool): (r: seq<Product>)
    ensures r == Filter(all, p => UpToCategory(p, q, catalog))
  {
    var s1 := Refine(all, q.search != "", p => SearchStep(p, q, catalog));
    RefineFirst(all, q.search != "", p => SearchStep(p, q, catalog), p => UpToSearch(p, q, catalog));
    RefineFilter(all, p => UpToSearch(p, q, catalog), q.category.Some?, p => CategoryStep(p, q), p => UpToCategory(p, q, catalog));
    Refine(s1, q.category.Some?, p => CategoryStep(p, q))
  }

  function FirstThreeSteps(all: seq<Product>, q: ProductQuery, catalog: bool): (r: seq<Product>)
    ensures r == Filter(all, p => UpToMin(p, q, catalog))
  {
    RefineFilter(all, p => UpToCategory(p, q, catalog), q.priceMin.Some?, p => MinStep(p, q), p => UpToMin(p, q, catalog));
    Refine(FirstTwoSteps(all, q, catalog), q.priceMin.Some?, p => MinStep(p, q))
  }

  /**
   * The filter chain of `product_list` (and, with `catalog`, of `catalog`):
   * search, then category, then `price__gte`, then `price__lte`. It keeps
   * exactly the products that satisfy every active condition, in their order.
   */
  function FilterProducts(all: seq<Product>, q: ProductQuery, catalog: bool): (r: seq<Product>)
    ensures r == Filter(all, p => Selected(p, q, catalog))
    ensures forall p :: p in r <==> p in all && Selected(p, q, catalog)
  {
    var r := Refine(FirstThreeSteps(all, q, catalog), q.priceMax.Some?, p => MaxStep(p, q));
    assert r == Filter(all, p => Selected(p, q, catalog)) by {
      RefineFilter(all, p => UpToMin(p, q, catalog), q.priceMax.Some?, p => MaxStep(p, q), p => Selected(p, q, catalog));
    }
    assert forall p :: p in r <==> p in all && Selected(p, q, catalog) by {
      FilterMembers(all, p => Selected(p, q, catalog));
    }
    r
  }

  /** The search keeps exactly the products whose name or category name contains the text, ignoring case. */
  lemma SearchKeepsMatches(all: seq<Product>, text: string, i: nat)
    requires text != "" && i < |all|
    ensures all[i] in FilterProducts(all, ProductQuery(text, None, None, None), false) <==> MatchesSearch(all[i], text)
  {
  }

  // ---------------------------------------------------------------------
  // Counts and price range
  // ---------------------------------------------------------------------

  /** Hundredths of a unit: `current_stock=0` and `0 < current_stock < 5`. */
  predicate OutOfStock(p: Product) { p.stock == 0 }
  predicate LowStock(p: Product) { 0 < p.stock < 500 }

  /** No product is both out of stock and low on stock, so the two counts never exceed the number of products. */
  lemma StockCountsDisjoint(all: seq<Product>)
    ensures Count(all, OutOfStock) + Count(all, LowStock) <= |all|
  {
    DisjointCounts(all, OutOfStock, LowStock);
  }

  /** `Min('price')`: `None` over an empty query set. */
  function MinPrice(s: seq<Product>): (m: Option<int>)
    ensures m.None? <==> s == []
    ensures m.Some? ==> (exists i :: 0 <= i < |s| && s[i].price == m.value)
    ensures m.Some? ==> forall i :: 0 <= i < |s| ==> m.value <= s[i].price
  {
    if s == [] then None
    else
      match MinPrice(s[1..])
      case None => Some(s[0].price)
      case Some(v) => Some(if s[0].price <= v then s[0].price else v)
  }

  /** `Max('price')`: `None` over an empty query set. */
  function MaxPrice(s: seq<Product>): (m: Option<int>)
    ensures m.None? <==> s == []
    ensures m.Some? ==> (exists i :: 0 <= i < |s| && s[i].price == m.value)
    ensures m.Some? ==> forall i :: 0 <= i < |s| ==> s[i].price <= m.value
  {
    if s == [] then None
    else
      match MaxPrice(s[1..])
      case None => Some(s[0].price)
      case Some(v) => Some(if s[0].price >= v then s[0].price else v)
  }

  /** Python's `value or default`: `None` and a zero amount both give `default`. */
  function OrDefault(v: Option<int>, default: int): (r: int)
    ensures v.Some? && v.value != 0 ==> r == v.value
    ensures v.None? || v.value == 0 ==> r == default
  {
    if v.Some? && v.value != 0 then v.value else default
  }

  /** What `product_list` renders besides the forms. */
  datatype ProductListPage = ProductListPage(
    products: seq<Product>,
    priceMin: int,
    priceMax: int,
    outOfStockCount: nat,
    lowStockCount: nat)

  /**
   * The slider range of `product_list`: `Min`/`Max` of the listed prices, each
   * replaced by 0 when absent or zero.
   */
  function ListPriceRange(products: seq<Product>): (r: (int, int))
    ensures products == [] ==> r == (0, 0)
    ensures products != [] ==> exists i :: 0 <= i < |products| && products[i].price == r.0
    ensures products != [] ==> exists i :: 0 <= i < |products| && products[i].price == r.1
    ensures forall i :: 0 <= i < |products| ==> r.0 <= products[i].price <= r.1
  {
    (OrDefault(MinPrice(products), 0), OrDefault(MaxPrice(products), 0))
  }

  /**
   * `product_list` on GET: the filtered products, the price range of the
   * filtered products (0/0 when there are none), and the stock counts taken
   * over all products.
   */
  function ProductList(all: seq<Product>, q: ProductQuery): (page: ProductListPage)
    ensures page.products == Filter(all, p => Selected(p, q, false))
    ensures (page.priceMin, page.priceMax) == ListPriceRange(page.products)
    ensures forall i :: 0 <= i < |page.products| ==> page.priceMin <= page.products[i].price <= page.priceMax
    ensures page.outOfStockCount == Count(all, OutOfStock) && page.lowStockCount == Count(all, LowStock)
    ensures page.outOfStockCount + page.lowStockCount <= |all|
  {
    var products := FilterProducts(all, q, false);
    var range := ListPriceRange(products);
    StockCountsDisjoint(all);
    ProductListPage(products, range.0, range.1, Count(all, OutOfStock), Count(all, LowStock))
  }

  /** The stock counts ignore the filters: any two queries give the same counts. */
  lemma StockCountsIgnoreFilters(all: seq<Product>, q1: ProductQuery, q2: ProductQuery)
    ensures ProductList(all, q1).outOfStockCount == ProductList(all, q2).outOfStockCount
    ensures ProductList(all, q1).lowStockCount == ProductList(all, q2).lowStockCount
  {
  }

  // ---------------------------------------------------------------------
  // Catalog sort
  // ---------------------------------------------------------------------

  datatype SortKey = PriceAsc | PriceDesc | NewFirst | ByName

  /** The `sort` parameter (`'name'` when absent): any value other than the three named ones sorts by name. */
  function SortKeyOf(sortBy: Option<string>): (k: SortKey)
    ensures sortBy == Some("price_asc") <==> k == PriceAsc
    ensures sortBy == Some("price_desc") <==> k == PriceDesc
    ensures sortBy == Some("new") <==> k == NewFirst
  {
    var s := sortBy.GetOr("name");
    if s == "price_asc" then PriceAsc
    else if s == "price_desc" then PriceDesc
    else if s == "new" then NewFirst
    else ByName
  }

  /** `order_by('price')`, `order_by('-price')`, `order_by('-is_new', 'name')` and `order_by('name')`. */
  predicate InOrder(key: SortKey, a: Product, b: Product) {
    match key
    case PriceAsc => a.price <= b.price
    case PriceDesc => a.price >= b.price
    case NewFirst => (a.isNew && !b.isNew) || (a.isNew == b.isNew && LexLe(a.name, b.name))
    case ByName => LexLe(a.name, b.name)
  }

  /** Each sort key is a total preorder, so the catalog can be sorted by it. */
  lemma InOrderIsPreorder(key: SortKey)
    ensures TotalPreorder((a, b) => InOrder(key, a, b))
  {
    forall a: Product, b: Product ensures InOrder(key, a, b) || InOrder(key, b, a) {
      LexLeTotal(a.name, b.name);
    }
    forall a: Product, b: Product, c: Product | InOrder(key, a, b) && InOrder(key, b, c)
      ensures InOrder(key, a, c)
    {
      if key == ByName || (key == NewFirst && a.isNew == b.isNew && b.isNew == c.isNew) {
        LexLeTransitive(a.name, b.name, c.name);
      }
    }
  }

  /**
   * What each sort key means for two catalog entries at positions `i < j`:
   * ascending or descending price, new products before the others and then by
   * name, or by name.
   */
  lemma CatalogOrder(all: seq<Product>, q: ProductQuery, sortBy: Option<string>, i: nat, j: nat)
    requires i < j < |CatalogProducts(all, q, sortBy)|
    ensures var r := CatalogProducts(all, q, sortBy);
            && (SortKeyOf(sortBy) == PriceAsc ==> r[i].price <= r[j].price)
            && (SortKeyOf(sortBy) == PriceDesc ==> r[i].price >= r[j].price)
            && (SortKeyOf(sortBy) == NewFirst ==> (r[i].isNew || !r[j].isNew))
            && (SortKeyOf(sortBy) == NewFirst && r[i].isNew == r[j].isNew ==> LexLe(r[i].name, r[j].name))
            && (SortKeyOf(sortBy) == ByName ==> LexLe(r[i].name, r[j].name))
  {
    var r := CatalogProducts(all, q, sortBy);
    assert InOrder(SortKeyOf(sortBy), r[i], r[j]);
  }

  /**
   * `catalog`: the filtered products (search also on the description) sorted
   * by the chosen key; the initial `-pk` order plays no part. Ties keep their
   * filtered order.
   */
  function CatalogProducts(all: seq<Product>, q: ProductQuery, sortBy: Option<string>): (r: seq<Product>)
    ensures SortedBy(r, (a, b) => InOrder(SortKeyOf(sortBy), a, b))
    ensures multiset(r) == multiset(Filter(all, p => Selected(p, q, true)))
  {
    var key := SortKeyOf(sortBy);
    InOrderIsPreorder(key);
    Sort(FilterProducts(all, q, true), (a, b) => InOrder(key, a, b))
  }

  /**
   * The catalog's slider bounds: the lowest and highest listed prices, except
   * that a missing or zero maximum shows as 1000 (0/1000 for an empty catalog).
   */
  function CatalogPriceRange(products: seq<Product>): (range: (int, int))
    ensures products == [] ==> range == (0, 1000)
    ensures products != [] ==> exists i :: 0 <= i < |products| && products[i].price == range.0
    ensures forall i :: 0 <= i < |products| ==> range.0 <= products[i].price
    ensures products != [] && MaxPrice(products).value != 0 ==> range.1 == MaxPrice(products).value
    ensures products != [] && MaxPrice(products).value == 0 ==> range.1 == 1000
  {
    (OrDefault(MinPrice(products), 0), OrDefault(MaxPrice(products), 1000))
  }

  /** What `catalog` renders besides pagination: the sorted products and the slider bounds over them. */
  datatype CatalogPage = CatalogPage(products: seq<Product>, priceMin: int, priceMax: int)

  /** `catalog`: the filtered products in the chosen order, and the price range of that same query set. */
  function Catalog(all: seq<Product>, q: ProductQuery, sortBy: Option<string>): (page: CatalogPage)
    ensures page.products == CatalogProducts(all, q, sortBy)
    ensures forall i :: 0 <= i < |page.products| ==> Selected(page.products[i], q, true)
    ensures forall i :: 0 <= i < |page.products| ==> page.priceMin <= page.products[i].price
    ensures page.products != [] ==> exists i :: 0 <= i < |page.products| && page.products[i].price == page.priceMin
    ensures page.products != [] && MaxPrice(page.products).value != 0 ==> page.priceMax == MaxPrice(page.products).value
    ensures page.products == [] || MaxPrice(page.products).value == 0 ==> page.priceMax == 1000
  {
    var products := CatalogProducts(all, q, sortBy);
    var range := CatalogPriceRange(products);
    PermutationKeeps(products, FilterProducts(all, q, true), p => Selected(p, q, true));
    CatalogPage(products, range.0, range.1)
  }

  /** With only free products in the catalog, the slider still reaches 1000. */
  lemma ZeroMaximumShowsThousand(p: Product)
    requires p.price == 0
    ensures CatalogPriceRange([p]) == (0, 1000)
  {
  }

  // ---------------------------------------------------------------------
  // Edit forms and the delete action
  // ---------------------------------------------------------------------

  /** The edit form attached to a listed product: the re-shown invalid one, or a fresh one with prefix `edit-<pk>`. */
  datatype EditForm = InvalidEditForm | FreshEditForm(prefix: string)

  predicate UniquePks(s: seq<Product>) {
    forall i, j :: 0 <= i < j < |s| ==> s[i].pk != s[j].pk
  }

  /**
   * The loop that gives each listed product its edit form: the product whose
   * pk, as text, equals the posted `invalid_edit_pk` gets the invalid form,
   * every other product a fresh one.
   */
  method AttachEditForms(products: seq<Product>, invalidEditPk: Option<string>) returns (forms: seq<EditForm>)
    ensures |forms| == |products|
    ensures forall i :: 0 <= i < |products| ==>
              (forms[i] == InvalidEditForm <==> invalidEditPk == Some(DecimalString(products[i].pk)))
    ensures forall i :: 0 <= i < |products| && forms[i] != InvalidEditForm ==>
              forms[i] == FreshEditForm("edit-" + DecimalString(products[i].pk))
    ensures UniquePks(products) ==>
              forall i, j :: 0 <= i < j < |forms| ==> !(forms[i] == InvalidEditForm && forms[j] == InvalidEditForm)
  {
    forms := [];
    var k := 0;
    while k < |products|
      invariant 0 <= k <= |products| && |forms| == k
      invariant forall i :: 0 <= i < k ==>
                  (forms[i] == InvalidEditForm <==> invalidEditPk == Some(DecimalString(products[i].pk)))
      invariant forall i :: 0 <= i < k && forms[i] != InvalidEditForm ==>
                  forms[i] == FreshEditForm("edit-" + DecimalString(products[i].pk))
    {
      var product := products[k];
      if invalidEditPk == Some(DecimalString(product.pk)) {
        forms := forms + [InvalidEditForm];
      } else {
        forms := forms + [FreshEditForm("edit-" + DecimalString(product.pk))];
      }
      k := k + 1;
    }
    if UniquePks(products) {
      forall i, j | 0 <= i < j < |forms| && forms[i] == InvalidEditForm && forms[j] == InvalidEditForm
        ensures false
      {
        DecimalStringInjective(products[i].pk, products[j].pk);
      }
    }
  }

  /** The position of the product with primary key `pk`, if any. */
  function IndexOfPk(s: seq<Product>, pk: nat): (r: Option<nat>)
    ensures r.Some? ==> r.value < |s| && s[r.value].pk == pk
    ensures r.None? ==> forall i :: 0 <= i < |s| ==> s[i].pk != pk
  {
    if s == [] then None
    else if s[0].pk == pk then Some(0)
    else match IndexOfPk(s[1..], pk)
      case None => None
      case Some(i) => Some(i + 1)
  }

  lemma RemoveAtKeepsUnique(rows: seq<Product>, i: nat)
    requires UniquePks(rows) && i < |rows|
    ensures UniquePks(rows[..i] + rows[i + 1..])
  {
    var r := rows[..i] + rows[i + 1..];
    forall a, b | 0 <= a < b < |r| ensures r[a].pk != r[b].pk {
      var a' := if a < i then a else a + 1;
      var b' := if b < i then b else b + 1;
      assert r[a] == rows[a'] && r[b] == rows[b'];
    }
  }

  /** The product table as the staff list changes it. */
  class ProductTable {
    var rows: seq<Product>

    ghost predicate Valid()
      reads this
    {
      UniquePks(rows)
    }

    constructor (rows: seq<Product>)
      requires UniquePks(rows)
      ensures Valid() && this.rows == rows
    {
      this.rows := rows;
    }

    /**
     * The `delete` action: 404 when no product has the posted pk; otherwise
     * exactly that product is removed and every other row stays, in order.
     */
    method Delete(pk: nat) returns (r: Lookup<Product>)
      requires Valid()
      modifies this
      ensures Valid()
      ensures r.NotFound? <==> (forall i :: 0 <= i < |old(rows)| ==> old(rows)[i].pk != pk)
      ensures r.NotFound? ==> rows == old(rows)
      ensures r.Found? ==> r.value in old(rows) && r.value.pk == pk
      ensures r.Found? ==> |rows| == |old(rows)| - 1
      ensures rows == Filter(old(rows), (p: Product) => p.pk != pk)
    {
      var keep: Product -> bool := (p: Product) => p.pk != pk;
      match IndexOfPk(rows, pk)
      case None =>
        FilterKeepsAll(rows, keep);
        r := NotFound;
      case Some(i) =>
        FilterRemovesOne(rows, i, keep);
        RemoveAtKeepsUnique(rows, i);
        r := Found(rows[i]);
        rows := rows[..i] + rows[i + 1..];
    }
  }
}
