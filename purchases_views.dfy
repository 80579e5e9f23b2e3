/**
 * The purchase order list (`purchases_list`): four optional filters,
 * newest-first ordering and statistics over every purchase order; and the
 * goods receipt page, whose form submission records nothing.
 */
module PurchasesViews {
  import opened Wrappers
  import opened Text
  import opened Seqs
  import opened CrmModels
  import SalesViews

  type SupplierId = int
  type PurchaseOrderId = int

  datatype PurchaseStatus = Draft | Sent | Confirmed | Received | Cancelled {
    /** The code stored in the `status` column. */
    function Code(): string {
      match this
      case Draft => "draft"
      case Sent => "sent"
      case Confirmed => "confirmed"
      case Received => "received"
      case Cancelled => "cancelled"
    }
  }

  const DefaultPurchaseStatus := Draft

  /** `totalAmount` is in cents. */
  datatype PurchaseOrder = PurchaseOrder(supplier: SupplierId, orderNumber: string, date: Day, totalAmount: int, status: PurchaseStatus)

  /** `order_by('-date')`: newest first. */
  predicate PurchaseNewer(a: PurchaseOrder, b: PurchaseOrder) {
    a.date >= b.date
  }

  lemma PurchaseNewerIsPreorder()
    ensures TotalPreorder(PurchaseNewer)
  {
  }

  // ---------------------------------------------------------------------
  // Filters
  // ---------------------------------------------------------------------

  /**
   * The `start_date`, `end_date`, `supplier` and `status` query parameters.
   * A date is `None` when absent or empty; the others are raw text.
   */
  datatype PurchaseQuery = PurchaseQuery(startDate: Option<Day>, endDate: Option<Day>, supplier: Option<string>, status: Option<string>)

  // One step of the chain each: the condition a `.filter(...)` call applies.
  predicate StartStep(p: PurchaseOrder, q: PurchaseQuery) { q.startDate.Some? && q.startDate.value <= p.date }
  predicate EndStep(p: PurchaseOrder, q: PurchaseQuery) { q.endDate.Some? && p.date <= q.endDate.value }
  predicate SupplierStep(p: PurchaseOrder, q: PurchaseQuery) { SalesViews.Given(q.supplier) && IntString(p.supplier) == q.supplier.value }
  predicate StatusStep(p: PurchaseOrder, q: PurchaseQuery) { SalesViews.Given(q.status) && p.status.Code() == q.status.value }

  // The conditions of the first one, two and three steps together.
  predicate UpToStart(p: PurchaseOrder, q: PurchaseQuery) { q.startDate.Some? ==> StartStep(p, q) }
  predicate UpToEnd(p: PurchaseOrder, q: PurchaseQuery) { UpToStart(p, q) && (q.endDate.Some? ==> EndStep(p, q)) }
  predicate UpToSupplier(p: PurchaseOrder, q: PurchaseQuery) { UpToEnd(p, q) && (SalesViews.Given(q.supplier) ==> SupplierStep(p, q)) }

  /**
   * Every active condition holds: the dates are inclusive bounds, the
   * supplier key and the status code are compared as text.
   */
  predicate PurchaseSelected(p: PurchaseOrder, q: PurchaseQuery) {
    UpToSupplier(p, q) && (SalesViews.Given(q.status) ==> StatusStep(p, q))
  }

  function FirstTwoSteps(all: seq<PurchaseOrder>, q: PurchaseQuery): (r: seq<PurchaseOrder>)
    ensures r == Filter(all, p => UpToEnd(p, q))
  {
    var s1 := Refine(all, q.startDate.Some?, p => StartStep(p, q));
    RefineFirst(all, q.startDate.Some?, p => StartStep(p, q), p => UpToStart(p, q));
    RefineFilter(all, p => UpToStart(p, q), q.endDate.Some?, p => EndStep(p, q), p => UpToEnd(p, q));
    Refine(s1, q.endDate.Some?, p => EndStep(p, q))
  }

  function FirstThreeSteps(all: seq<PurchaseOrder>, q: PurchaseQuery): (r: seq<PurchaseOrder>)
    ensures r == Filter(all, p => UpToSupplier(p, q))
  {
    RefineFilter(all, p => UpToEnd(p, q), SalesViews.Given(q.supplier), p => SupplierStep(p, q), p => UpToSupplier(p, q));
    Refine(FirstTwoSteps(all, q), SalesViews.Given(q.supplier), p => SupplierStep(p, q))
  }

  /** The filter chain of `purchases_list`: it keeps exactly the purchase orders that satisfy every active condition, in order. */
  function FilterPurchases(all: seq<PurchaseOrder>, q: PurchaseQuery): (r: seq<PurchaseOrder>)
    ensures r == Filter(all, p => PurchaseSelected(p, q))
    ensures forall p :: p in r <==> p in all && PurchaseSelected(p, q)
  {
    var r := Refine(FirstThreeSteps(all, q), SalesViews.Given(q.status), p => StatusStep(p, q));
    assert r == Filter(all, p => PurchaseSelected(p, q)) by {
      RefineFilter(all, p => UpToSupplier(p, q), SalesViews.Given(q.status), p => StatusStep(p, q), p => PurchaseSelected(p, q));
    }
    assert forall p :: p in r <==> p in all && PurchaseSelected(p, q) by {
      FilterMembers(all, p => PurchaseSelected(p, q));
    }
    r
  }

  /** Asking for status `s` keeps exactly the purchase orders in status `s`. */
  lemma StatusFilterSelectsStatus(all: seq<PurchaseOrder>, s: PurchaseStatus, i: nat)
    requires i < |all|
    ensures all[i] in FilterPurchases(all, PurchaseQuery(None, None, None, Some(s.Code()))) <==> all[i].status == s
  {
  }

  /** Asking for supplier `v` keeps exactly the purchase orders of `v`. */
  lemma SupplierFilterSelectsSupplier(all: seq<PurchaseOrder>, v: SupplierId, i: nat)
    requires i < |all|
    ensures all[i] in FilterPurchases(all, PurchaseQuery(None, None, Some(IntString(v)), None)) <==> all[i].supplier == v
  {
    assert IntString(v)[0] != "all"[0];
    if IntString(all[i].supplier) == IntString(v) {
      IntStringInjective(all[i].supplier, v);
    }
  }

  /** `all` and an empty parameter select the same purchase orders as an absent one. */
  lemma AllMeansNoFilter(all: seq<PurchaseOrder>, q: PurchaseQuery, supplier: Option<string>, status: Option<string>)
    requires !SalesViews.Given(supplier) && !SalesViews.Given(status)
    ensures FilterPurchases(all, q.(supplier := supplier, status := status))
            == FilterPurchases(all, q.(supplier := None, status := None))
  {
    var a := q.(supplier := supplier, status := status);
    var b := q.(supplier := None, status := None);
    forall i | 0 <= i < |all|
      ensures PurchaseSelected(all[i], a) == PurchaseSelected(all[i], b)
    {
      assert UpToEnd(all[i], a) == UpToEnd(all[i], b);
    }
    FilterAgree(all, p => PurchaseSelected(p, a), p => PurchaseSelected(p, b));
  }

  // ---------------------------------------------------------------------
  // Statistics and the list page
  // ---------------------------------------------------------------------

  /** The statistics box; `total` is in cents. */
  datatype PurchaseStats = PurchaseStats(total: int, drafts: nat, confirmed: nat)

  predicate IsDraft(p: PurchaseOrder) { p.status == Draft }
  predicate IsConfirmed(p: PurchaseOrder) { p.status == Confirmed }

  function PurchaseAmount(p: PurchaseOrder): int { p.totalAmount }

  /** Statistics over every purchase order, whatever the filters; the total of none is 0. */
  function PurchaseStatsOf(all: seq<PurchaseOrder>): (s: PurchaseStats)
    ensures all == [] ==> s == PurchaseStats(0, 0, 0)
    ensures s.drafts + s.confirmed <= |all|
    ensures s.total == SumOf(all, PurchaseAmount)
    ensures s.drafts == |Filter(all, IsDraft)| && s.confirmed == |Filter(all, IsConfirmed)|
  {
    DisjointCounts(all, IsDraft, IsConfirmed);
    PurchaseStats(SumOf(all, PurchaseAmount), Count(all, IsDraft), Count(all, IsConfirmed))
  }

  /** Adding a purchase order adds its amount to the total. */
  lemma NewPurchaseAddsToTotal(all: seq<PurchaseOrder>, p: PurchaseOrder)
    ensures PurchaseStatsOf(all + [p]).total == PurchaseStatsOf(all).total + p.totalAmount
  {
    SumOfAppend(all, [p], PurchaseAmount);
  }

  datatype PurchasesPage = PurchasesPage(purchases: seq<PurchaseOrder>, stats: PurchaseStats)

  /** `purchases_list` before pagination: the selected purchase orders newest first, and the statistics. */
  function PurchasesList(all: seq<PurchaseOrder>, q: PurchaseQuery): (page: PurchasesPage)
    ensures SortedBy(page.purchases, PurchaseNewer)
    ensures multiset(page.purchases) == multiset(Filter(all, p => PurchaseSelected(p, q)))
    ensures forall i :: 0 <= i < |page.purchases| ==> PurchaseSelected(page.purchases[i], q)
    ensures page.stats == PurchaseStatsOf(all)
  {
    PurchaseNewerIsPreorder();
    var listed := Sort(FilterPurchases(all, q), PurchaseNewer);
    PermutationKeeps(listed, FilterPurchases(all, q), p => PurchaseSelected(p, q));
    PurchasesPage(listed, PurchaseStatsOf(all))
  }

  // ---------------------------------------------------------------------
  // Goods receipt
  // ---------------------------------------------------------------------

  /** What the goods receipt page answers. */
  datatype ReceiptReply = RedirectToPurchase(pk: PurchaseOrderId) | ReceiptForm(purchase: PurchaseOrder)

  /**
   * `goods_receipt_create`: 404 for an unknown purchase order; a submission
   * redirects to the purchase order's page; any other request shows the form.
   * It takes no store to write to: no receipt is recorded.
   */
  function GoodsReceiptCreate(purchases: map<PurchaseOrderId, PurchaseOrder>, pk: PurchaseOrderId, isPost: bool): (r: Lookup<ReceiptReply>)
    ensures r.NotFound? <==> pk !in purchases
    ensures r.Found? && isPost ==> r.value == RedirectToPurchase(pk)
    ensures r.Found? && !isPost ==> r.value == ReceiptForm(purchases[pk])
  {
    if pk !in purchases then NotFound
    else if isPost then Found(RedirectToPurchase(pk))
    else Found(ReceiptForm(purchases[pk]))
  }

  /** A submission answers the same whatever the purchase order holds: the posted data is never read or stored. */
  lemma SubmissionIgnoresContent(purchases: map<PurchaseOrderId, PurchaseOrder>, pk: PurchaseOrderId, other: PurchaseOrder)
    requires pk in purchases
    ensures GoodsReceiptCreate(purchases, pk, true) == GoodsReceiptCreate(purchases[pk := other], pk, true)
  {
  }
}
