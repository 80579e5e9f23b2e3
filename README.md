# Ferremateriales: a Dafny model of the shop's behaviour

Ferremateriales is a Django back office for a hardware store. It covers
inventory, a public catalog, customers, sales, purchases and a shopping cart.
Most of the repository declares models, forms and URL tables. This project
models the parts that compute something:

- the admin page script (`static/admin/js/custom_admin.js`):
  - `getCookie`, which finds the first `name=value` pair of a `;`-separated
    cookie string (the cookie-string shape of section 5.4 of RFC 6265);
  - the language selector, which strips an `en`/`es` segment from the front
    of the current path and builds `/<code>/…` target URLs.
- the cart views (`apps/car/views.py`): `add_to_cart`, `update_cart_item` and
  `remove_from_cart`. They run over a store of per-user carts, and each cart
  maps a product to its line (item id, quantity).
- `Order.save` (`apps/sales/models.py`): it saves the order and then
  overwrites the customer's `last_purchase` with the order's date at 00:00.
  The model also covers the order and quote status choices and the field
  defaults.
- the list views:
  - inventory `product_list` and `catalog`;
  - CRM `clientes` and `historial_cliente`;
  - `sales_list`;
  - `purchases_list` and `goods_receipt_create`.

  They cover the optional filters, newest-first ordering, sort-key dispatch,
  statistics, the latest order of each customer, the delete action and the
  edit-form loop.

Layout:

- `wrappers.dfy` holds `Option` and the 404-or-found `Lookup`.
- `seqs.dfy` holds query sets as sequences: filter, count, sum, and a stable
  sort by a total preorder.
- `text.dfy` holds substring tests, ASCII case folding, lexicographic order
  and the decimal text of an id.
- The other files follow the source, one file per module.

Money and stock are integers (cents and hundredths), because the source
stores them in two-place `DecimalField`s. A date is a day number.

`Order.save` overwrites `last_purchase` whatever it holds. The stored date is
therefore that of the last order saved, not the latest order date
(`SalesModels.LastSaveWins`, `SalesModels.StampCanMoveBackwards`).

## Model

| member | source | states |
|---|---|---|
| AdminScript.Split | static/admin/js/custom_admin.js:5 | `split` always yields at least one piece, and no piece contains the separator |
| AdminScript.SplitJoin | static/admin/js/custom_admin.js:179 | splitting the join of separator-free pieces gives the same pieces back |
| AdminScript.JoinSplit | static/admin/js/custom_admin.js:177-179 | rejoining the pieces of a split with the same separator gives the text back |
| AdminScript.TrimStartShape | static/admin/js/custom_admin.js:7 | trimming the front keeps a suffix of the text, drops only white space, and keeps a first character that is not white space |
| AdminScript.TrimEndShape | static/admin/js/custom_admin.js:7 | trimming the end keeps a prefix of the text, drops only white space, and keeps a last character that is not white space |
| AdminScript.TrimShape | static/admin/js/custom_admin.js:7 | `trim()` keeps a contiguous slice of the text with only white space around it, and the slice neither starts nor ends with white space |
| AdminScript.CookieValue | static/admin/js/custom_admin.js:2-15 | null exactly when the cookie string is empty or no pair matches; otherwise the decoded value of the first matching pair |
| AdminScript.FirstMatch | static/admin/js/custom_admin.js:6-12 | the index found is of a pair whose trimmed text starts with `name=`, and no earlier pair matches; none is found only when no pair matches |
| AdminScript.GetCookie | static/admin/js/custom_admin.js:2-15 | the loop with its early exit returns null for an empty cookie string, and otherwise the decoded value of the first matching pair (null when none matches) |
| AdminScript.PairMatchesIsPrefix | static/admin/js/custom_admin.js:8 | a pair matches exactly when its trimmed text starts with `name=` |
| AdminScript.FirstPairWins | static/admin/js/custom_admin.js:6-11 | when pair i is the first that matches, the result is pair i's decoded value, and later pairs with the same name are ignored |
| AdminScript.LongerNameNeverMatches | static/admin/js/custom_admin.js:8 | a cookie whose name only extends the requested name (`csrftokenX=`) never matches, because `=` is part of the compared prefix |
| AdminScript.PaddingIgnored | static/admin/js/custom_admin.js:7 | white space before and after a pair does not change its trimmed text |
| AdminScript.SameTrimSameMatch | static/admin/js/custom_admin.js:6-12 | two pair lists whose pairs trim alike give the same first match |
| AdminScript.SpacingDoesNotMatter | static/admin/js/custom_admin.js:5-12 | two cookie strings whose pairs differ only in surrounding white space give the same value |
| AdminScript.ExampleFirstOfDuplicates | static/admin/js/custom_admin.js:6-11 | in `a=1;a=2` the value of `a` is the decoded `1` |
| AdminScript.FirstPieceIsCode | static/admin/js/custom_admin.js:177-179 | the first `/`-piece of a text is a code exactly when the text is the code or starts with the code and `/`; the later pieces then rejoin to what follows the code |
| AdminScript.SlashPathCode | static/admin/js/custom_admin.js:177-179 | for a path starting with `/`, `pathParts[1]` is a code exactly when the path's first segment is that code, and `'/' + pathParts.slice(2).join('/')` is the path without that segment |
| AdminScript.CurrentPath | static/admin/js/custom_admin.js:175-183 | the normalised path always starts with `/`; a path whose first segment is `en` or `es` loses exactly that segment, and any other `/`-leading path is unchanged |
| AdminScript.TargetUrl | static/admin/js/custom_admin.js:186-194 | every target URL starts with `/` and the code; the root path gives `/<code>/`, and any path that starts with `/` gives `/<code>` followed by that path, so the root branch agrees with the general one |
| AdminScript.TargetUrlSegment | static/admin/js/custom_admin.js:186-194 | the target URL's first segment is the selected code: `/c/` for the root path, `/c` + path otherwise; dropping that segment gives the current path back |
| AdminScript.LanguageSwitchRoundTrip | static/admin/js/custom_admin.js:175-194 | for `en` and `es`, normalising the target URL on the next page gives back the path the switch started from |
| CartViews.RequestedQuantity | apps/car/views.py:37 | an absent `quantity` field counts as 1, and a posted one is taken as it is |
| CartViews.Added | apps/car/views.py:40-48 | a product not in the cart gets exactly the requested quantity; a product in the cart gets the requested quantity added; every other product keeps its quantity |
| CartViews.Updated | apps/car/views.py:71-78 | a positive quantity replaces the product's quantity; any other quantity removes the product; every other product is unchanged |
| CartViews.AddedTwice | apps/car/views.py:41-48 | adding a and then b of a product is adding a + b |
| CartViews.UpdateThenAdd | apps/car/views.py:41-48 | after an update to q > 0, adding a gives q + a |
| CartViews.RemoveThenAdd | apps/car/views.py:41-48 | after an update to q <= 0 removes the item, adding a starts a fresh line with quantity a |
| CartViews.NewLineWellFormed | apps/car/views.py:41-45 | creating a line with the next item id keeps item ids unique across all carts |
| CartViews.SameIdWellFormed | apps/car/views.py:46-48 | changing a line's quantity in place keeps item ids unique |
| CartViews.RemovedWellFormed | apps/car/views.py:60 | deleting a line keeps item ids unique |
| CartViews.CartStore.AddToCart | apps/car/views.py:35-55 | 404 exactly for an unknown product; otherwise the user's quantities become `Added(old, product, quantity)` with the quantity defaulting to 1; an existing line keeps its id, a new line gets the next id; no other cart or line changes |
| CartViews.CartStore.RemoveFromCart | apps/car/views.py:57-62 | 404 unless the item is in the requesting user's own cart; otherwise exactly that line is deleted and nothing else changes |
| CartViews.CartStore.UpdateCartItem | apps/car/views.py:64-99 | 404 unless the item is in the user's own cart; quantity > 0 sets the line to exactly that quantity and returns the line (for `item_total` and `quantity`); otherwise the line is deleted, `item_removed` is true and no line is returned; the message matches the branch; no other line changes |
| CrmModels.CodesAreDistinct | apps/crm/models.py:11-21 | different client types and different statuses are stored under different codes |
| SalesModels.Midnight | apps/sales/models.py:192 | the timestamp is a whole number of days and falls on the order's date |
| SalesModels.MidnightMonotone | apps/sales/models.py:192 | earlier dates have earlier midnights, and conversely |
| SalesModels.ParseOrderStatus | apps/sales/models.py:123-129 | a stored order status is one of pending, confirmed, shipped, delivered, cancelled, and its code identifies it |
| SalesModels.ParseQuoteStatus | apps/sales/models.py:16-21 | a stored quote status is one of draft, sent, accepted, rejected, and its code identifies it |
| SalesModels.NewQuote | apps/sales/models.py:37-48 | a new quote has status `draft` and total 0 |
| SalesModels.NewOrder | apps/sales/models.py:145-163 | a new order has status `pending`, total 0 and no quote |
| SalesModels.OrderNewerIsPreorder | apps/sales/views.py:27 | ordering orders newest first is a total preorder |
| SalesModels.QuoteNewerIsPreorder | apps/crm/views.py:101 | ordering quotes newest first is a total preorder |
| SalesModels.StampLastPurchase | apps/sales/models.py:190-195 | afterwards `last_purchase` is the order date at 00:00, and every other customer field is as before |
| SalesModels.StampCanMoveBackwards | apps/sales/models.py:194 | saving an order dated before the current `last_purchase` moves it backwards |
| SalesModels.LastSaveWins | apps/sales/models.py:184-195 | after a run of saves, `last_purchase` is the date of the last order saved, and nothing else in the customer changed |
| SalesModels.ExampleOlderOrderSavedLast | apps/sales/models.py:194 | saving an order of day 20 and then one of day 5 leaves day 5 |
| SalesModels.AdmissibleKeepsConsistent | apps/sales/models.py:136-163 | storing an admissible order keeps the table constraints: a unique order number, existing customer and quote, and each quote used by at most one order |
| SalesModels.SalesDb.SaveOrder | apps/sales/models.py:184-195 | a row that breaks a constraint is refused and nothing is written; otherwise the order row is written first, unchanged, and then only the customer's `last_purchase` is overwritten with the order date at 00:00 and written as one column |
| CrmViews.FilterCustomers | apps/crm/views.py:26-37 | the chain keeps, in order, exactly the customers whose name contains `nombre` ignoring case and whose type and status codes equal `tipo` and `estado`, each condition applying only when its parameter is non-empty |
| CrmViews.StatusFilterSelectsOneStatus | apps/crm/views.py:36-37 | filtering on a status code keeps exactly the customers in that status |
| CrmViews.NoParametersKeepsAll | apps/crm/views.py:30-37 | with no parameter every customer is listed, in order |
| CrmViews.LatestOrder | apps/crm/views.py:42 | none exactly when the customer has no order; otherwise one of its orders, and no order of it has a later date |
| CrmViews.OrdersNewestFirst | apps/crm/views.py:42 | the customer's orders, sorted newest first |
| CrmViews.LatestIsFirstOfNewest | apps/crm/views.py:42 | `LatestOrder` exists exactly when `order_by('-date')` is non-empty, and it has the date of `.first()` |
| CrmViews.AnnotateLastOrder | apps/crm/views.py:39-44 | the loop keeps the customers in their filtered order and gives each one its latest order |
| CrmViews.ClientStats | apps/crm/views.py:52-58 | the active, delinquent and new-this-month counts are taken over all customers; no customer is both active and delinquent; the month-sales figure is 0 |
| CrmViews.EarlierYearCountsAsNew | apps/crm/views.py:57 | a customer created in this month of an earlier year counts as new this month |
| CrmViews.Clients | apps/crm/views.py:25-58 | the listed customers are the filtered ones, in order, each with its latest order; the statistics ignore the filters |
| CrmViews.InvoiceNewerIsPreorder | apps/crm/views.py:102 | ordering invoices by issue date, newest first, is a total preorder |
| CrmViews.CustomerById | apps/crm/views.py:99 | the customer returned has the requested key |
| CrmViews.CustomerHistory | apps/crm/views.py:98-111 | 404 exactly for an unknown customer; otherwise its orders and quotes newest first by date and its invoices newest first by issue date, each a permutation of that customer's records; the total is the sum of its invoice totals |
| CrmViews.NoInvoicesZeroTotal | apps/crm/views.py:103 | a customer without invoices has a total of 0 |
| CrmViews.OtherInvoicesIgnored | apps/crm/views.py:102-103 | another customer's invoice does not change the total |
| SalesViews.FilterOrders | apps/sales/views.py:11-25 | keeps, in order, exactly the orders with `start_date <= date <= end_date`, each bound inclusive and applied only when given; the customer and status conditions apply unless the parameter is absent, empty or `all` |
| SalesViews.CustomerFilterSelectsCustomer | apps/sales/views.py:22-23 | asking for customer c keeps exactly c's orders |
| SalesViews.AllMeansNoFilter | apps/sales/views.py:22-25 | `all` or an empty customer or status selects the same orders as an absent one |
| SalesViews.OrderStats | apps/sales/views.py:37-40 | the total is the sum over all orders (0 when there are none), and the pending and delivered counts are over all orders |
| SalesViews.NewOrderAddsToTotal | apps/sales/views.py:38 | one more order adds its amount to the total |
| SalesViews.SalesList | apps/sales/views.py:9-40 | the listed orders are sorted newest first, are a permutation of the filtered orders, and all satisfy the filter; the statistics are those of all orders |
| SalesViews.StatsIgnoreFilters | apps/sales/views.py:37-40 | any two queries give the same statistics |
| PurchasesViews.PurchaseNewerIsPreorder | apps/purchases/views.py:27 | ordering purchase orders newest first is a total preorder |
| PurchasesViews.FilterPurchases | apps/purchases/views.py:11-25 | keeps, in order, exactly the purchase orders within the inclusive date bounds given; the supplier and status conditions apply unless the parameter is absent, empty or `all` |
| PurchasesViews.StatusFilterSelectsStatus | apps/purchases/views.py:24-25 | asking for status s keeps exactly the purchase orders in status s |
| PurchasesViews.SupplierFilterSelectsSupplier | apps/purchases/views.py:22-23 | asking for supplier v keeps exactly v's purchase orders |
| PurchasesViews.AllMeansNoFilter | apps/purchases/views.py:22-25 | `all` or an empty supplier or status selects the same purchase orders as an absent one |
| PurchasesViews.PurchaseStatsOf | apps/purchases/views.py:37-40 | the total is the sum over all purchase orders (0 when none), and the draft and confirmed counts are over all of them |
| PurchasesViews.NewPurchaseAddsToTotal | apps/purchases/views.py:38 | one more purchase order adds its amount to the total |
| PurchasesViews.PurchasesList | apps/purchases/views.py:9-40 | the listed purchase orders are sorted newest first, are a permutation of the filtered ones, and all satisfy the filter; the statistics are those of all purchase orders |
| PurchasesViews.GoodsReceiptCreate | apps/purchases/views.py:103-109 | 404 exactly for an unknown purchase order; a POST only redirects to that order's page; any other request shows the form for it |
| PurchasesViews.SubmissionIgnoresContent | apps/purchases/views.py:106-108 | the POST reply does not depend on the purchase order's contents |
| InventoryViews.FilterProducts | apps/inventory/views.py:63-79 | keeps, in order, exactly the products that match the search, are in the category and have `price_min <= price <= price_max`, each condition applying only when its parameter is given |
| InventoryViews.SearchKeepsMatches | apps/inventory/views.py:66-70 | the search keeps exactly the products whose name or category name contains the text, ignoring case |
| InventoryViews.StockCountsDisjoint | apps/inventory/views.py:88-89 | out of stock (stock 0) and low stock (0 < stock < 5) are disjoint, so the two counts sum to at most the number of products |
| InventoryViews.MinPrice | apps/inventory/views.py:85 | none for no products; otherwise a listed price no greater than any other |
| InventoryViews.MaxPrice | apps/inventory/views.py:85 | none for no products; otherwise a listed price no smaller than any other |
| InventoryViews.OrDefault | apps/inventory/views.py:102-103 | a missing or zero aggregate gives the default, and any other value is kept |
| InventoryViews.ListPriceRange | apps/inventory/views.py:85-103 | 0/0 for an empty list; otherwise the minimum and maximum listed prices: both are attained, and every listed price lies between them |
| InventoryViews.ProductList | apps/inventory/views.py:63-110 | the page lists the filtered products; the slider bounds are `ListPriceRange` of exactly those products, so they enclose their prices (0/0 when empty); the stock counts are over all products and sum to at most their number |
| InventoryViews.StockCountsIgnoreFilters | apps/inventory/views.py:88-89 | any two queries give the same stock counts |
| InventoryViews.SortKeyOf | apps/inventory/views.py:158-166 | `price_asc`, `price_desc` and `new` select their own keys, and anything else (or no parameter) sorts by name |
| InventoryViews.InOrderIsPreorder | apps/inventory/views.py:158-166 | each of the four orderings is a total preorder |
| InventoryViews.CatalogProducts | apps/inventory/views.py:139-166 | the catalog shows a permutation of the filtered products, where the search also matches the description, sorted by the chosen key; the initial `-pk` order plays no part |
| InventoryViews.CatalogPriceRange | apps/inventory/views.py:175-182 | 0/1000 for an empty catalog; otherwise the minimum is an attained price no greater than any price, and the maximum is `MaxPrice` of the products unless that is 0, when it is 1000 |
| InventoryViews.Catalog | apps/inventory/views.py:131-188 | the catalog page lists exactly `CatalogProducts`, each of which passes the filter; its price bounds are the attained minimum of those products and their maximum, or 1000 when there are none or the maximum is 0 |
| InventoryViews.CatalogOrder | apps/inventory/views.py:158-166 | for any two positions i < j of the catalog: ascending price for `price_asc`, descending for `price_desc`, new products first and then by name for `new`, and by name otherwise |
| InventoryViews.ZeroMaximumShowsThousand | apps/inventory/views.py:182 | a catalog of free products still shows 1000 as the maximum |
| InventoryViews.AttachEditForms | apps/inventory/views.py:91-96 | exactly the products whose pk, as text, equals the posted invalid pk get the invalid form; every other product gets a fresh form prefixed `edit-<pk>`; with unique pks at most one product gets the invalid form |
| InventoryViews.IndexOfPk | apps/inventory/views.py:58-59 | the position found holds the product with that pk, and none means no product has it |
| InventoryViews.RemoveAtKeepsUnique | apps/inventory/views.py:60 | removing one row keeps pks unique |
| InventoryViews.ProductTable.Delete | apps/inventory/views.py:57-61 | 404 exactly when no product has the pk; otherwise exactly that product is removed and every other row stays, in order |
| Text.IntStringInjective | apps/sales/views.py:22-23 | different ids have different decimal texts, so a text comparison of ids selects one id |
| Text.ContainsInfix | apps/inventory/views.py:67-69 | a text that has the needle between a prefix and a suffix contains it |
| Text.ContainsSplits | apps/inventory/views.py:67-69 | a text that contains the needle has it at some position |
| Text.IContainsIgnoresCase | apps/inventory/views.py:67-69 | lower-casing either the text or the needle does not change whether `icontains` holds |
| Text.IContainsInfix | apps/inventory/views.py:67-69 | a text that has the needle between a prefix and a suffix contains it, ignoring case |
| Text.LexLeTransitive | apps/inventory/views.py:166 | ordering by name is transitive |
| Text.LexLeAntisymmetric | apps/inventory/views.py:166 | two names that order both ways are equal |
| Seqs.FirstIndex | static/admin/js/custom_admin.js:6-12 | the position found is the first at or after `from` whose record passes the test; none is found only when no such record follows |
| Seqs.Sort | apps/sales/views.py:27 | `order_by` returns a permutation of the query set, sorted by the key |
| Seqs.DisjointCounts | apps/inventory/views.py:88-89 | the counts of two conditions that never hold together sum to at most the number of records |

## Left out

- `decodeURIComponent` is a parameter of `AdminScript.GetCookie` and is left unspecified. Its `URIError` on malformed escapes is not modelled.
- AdminScript.CurrentPath: its contract covers paths that start with `/`, which is what `window.location.pathname` always returns. For other texts only the leading `/` is stated.
- The DOM and UI code of the admin script is not modelled: element creation, event listeners, form submission and the theme toggle.
- CartViews.CartStore.AddToCart: returns the stored line rather than the JSON reply. `cartItemCount` comes from `get_total_items`, and apps/car/models.py is not part of this model.
- CartViews.CartStore.UpdateCartItem: `cart_total`, `total_items` and `item_total` are not computed, for the same reason. The reply returns the line they are computed from.
- CartViews.RequestedQuantity: `int()` failing on a posted quantity that is not a number (a server error) is not modelled. The posted quantity arrives as an integer or not at all.
- `cart_detail` and its WhatsApp message are not modelled: they depend on the cart totals.
- `get_or_create` atomicity and concurrent requests are not modelled. Every operation runs alone.
- SalesModels.Midnight: `make_aware` and time zones are not modelled. A date is a day number and its timestamp is that day at 00:00.
- SalesModels.SalesDb.SaveOrder: the database constraints are modelled as one admissibility test. Django's validation order and error messages are not modelled.
- The order status state machine, total recomputation, account balances, ledger postings, invoice payment status and stock derived from stock movements are not modelled: the code has none of them.
- SalesViews.FilterOrders: the `customer` parameter is compared with the decimal text of the id. Django converts the text to an integer first, so `05` selects customer 5 there but nothing here. A text that is not a number is a server error there and selects nothing here.
- PurchasesViews.FilterPurchases: `supplier` is compared as text, with the same difference as `SalesViews.FilterOrders`.
- InventoryViews.FilterProducts: the parameters arrive already parsed (category id as an integer, prices in cents). A text Django cannot convert is not modelled.
- Dates in the sales and purchases filters arrive already parsed. A malformed date is not modelled.
- Text.IContains: case folding covers ASCII letters only. The database collation may fold more characters.
- Seqs.Sort: ties keep their input order. The database leaves the order of ties unspecified, so the list contracts state only sortedness and a permutation.
- Pagination is not modelled: 10 per page in `clientes`, `sales_list` and `purchases_list`, 12 in the catalog. `product_list` is not paginated.
- Text.LexLe: `order_by('name')` is modelled as code-point order. The database sorts by its collation; SQLite's default BINARY collation agrees, locale collations do not.
- The per-category `product_count` annotation is not modelled: it is only rendered.
- The `add` and `edit` form actions of `product_list`, the `clientes` form POST and the modal template switches are not modelled. They are form validation and template choice.
- InventoryViews.ProductTable.Delete: the cascade to rows that reference the product is not modelled.
- The thumbnail resize in `Product.save` is not modelled: it is image processing.
- CrmViews.ClientStats: the current date is a parameter. The `ventas_mes` placeholder is the constant 0, as in the source.
- CrmViews.CustomerHistory: an invoice carries only the customer, issue date and total that the history reads. apps/invoicing is not part of this model.
