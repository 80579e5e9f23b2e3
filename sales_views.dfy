/**
 * The order list of the sales module (`sales_list`): four optional filters,
 * newest-first ordering, and statistics over every order.
 */
module SalesViews {
  import opened Wrappers
  import opened Text
  import opened Seqs
  import opened CrmModels
  import opened SalesModels

  /**
   * The `start_date`, `end_date`, `customer` and `status` query parameters.
   * A date is `None` when absent or empty; the others are raw text.
   */
  datatype SalesQuery = SalesQuery(startDate: Option<Day>, endDate: Option<Day>, customer: Option<string>, status: Option<string>)

  /** A text parameter takes part in the filter when it is present, not empty and not `all`. */
  predicate Given(param: Option<string>) {
    param.Some? && param.value != "" && param.value != "all"
  }

  // One step of the chain each: the condition a `.filter(...)` call applies.
  predicate StartStep(o: Order, q: SalesQuery) { q.startDate.Some? && q.startDate.value <= o.date }
  predicate EndStep(o: Order, q: SalesQuery) { q.endDate.Some? && o.date <= q.endDate.value }
  predicate CustomerStep(o: Order, q: SalesQuery) { Given(q.customer) && IntString(o.customer) == q.customer.value }
  predicate StatusStep(o: Order, q: SalesQuery) { Given(q.status) && o.status.Code() == q.status.value }

  // The conditions of the first one, two and three steps together.
  predicate UpToStart(o: Order, q: SalesQuery) { q.startDate.Some? ==> StartStep(o, q) }
  predicate UpToEnd(o: Order, q: SalesQuery) { UpToStart(o, q) && (q.endDate.Some? ==> EndStep(o, q)) }
  predicate UpToCustomer(o: Order, q: SalesQuery) { UpToEnd(o, q) && (Given(q.customer) ==> CustomerStep(o, q)) }

  /**
   * Every active condition holds: the dates are inclusive bounds, the
   * customer key and the status code are compared as text.
   */
  predicate OrderSelected(o: Order, q: SalesQuery) {
    UpToCustomer(o, q) && (Given(q.status) ==> StatusStep(o, q))
  }

  function FirstTwoSteps(all: seq<Order>, q: SalesQuery): (r: seq<Order>)
    ensures r == Filter(all, o => UpToEnd(o, q))
  {
    var s1 := Refine(all, q.startDate.Some?, o => StartStep(o, q));
    RefineFirst(all, q.startDate.Some?, o => StartStep(o, q), o => UpToStart(o, q));
    RefineFilter(all, o => UpToStart(o, q), q.endDate.Some?, o => EndStep(o, q), o => UpToEnd(o, q));
    Refine(s1, q.endDate.Some?, o => EndStep(o, q))
  }

  function FirstThreeSteps(all: seq<Order>, q: SalesQuery): (r: seq<Order>)
    ensures r == Filter(all, o => UpToCustomer(o, q))
  {
    RefineFilter(all, o => UpToEnd(o, q), Given(q.customer), o => CustomerStep(o, q), o => UpToCustomer(o, q));
    Refine(FirstTwoSteps(all, q), Given(q.customer), o => CustomerStep(o, q))
  }

  /** The filter chain of `sales_list`: it keeps exactly the orders that satisfy every active condition, in order. */
  function FilterOrders(all: seq<Order>, q: SalesQuery): (r: seq<Order>)
    ensures r == Filter(all, o => OrderSelected(o, q))
    ensures forall o :: o in r <==> o in all && OrderSelected(o, q)
  {
    var r := Refine(FirstThreeSteps(all, q), Given(q.status), o => StatusStep(o, q));
    assert r == Filter(all, o => OrderSelected(o, q)) by {
      RefineFilter(all, o => UpToCustomer(o, q), Given(q.status), o => StatusStep(o, q), o => OrderSelected(o, q));
    }
    assert forall o :: o in r <==> o in all && OrderSelected(o, q) by {
      FilterMembers(all, o => OrderSelected(o, q));
    }
    r
  }

  /** Asking for the orders of customer `c` keeps exactly the orders of `c`. */
  lemma CustomerFilterSelectsCustomer(all: seq<Order>, c: CustomerId, i: nat)
    requires i < |all|
    ensures all[i] in FilterOrders(all, SalesQuery(None, None, Some(IntString(c)), None)) <==> all[i].customer == c
  {
    var q := SalesQuery(None, None, Some(IntString(c)), None);
    assert IntString(c)[0] != "all"[0];
    if IntString(all[i].customer) == IntString(c) {
      IntStringInjective(all[i].customer, c);
    }
  }

  /** `all` and an empty parameter select the same orders as an absent one. */
  lemma AllMeansNoFilter(all: seq<Order>, q: SalesQuery, customer: Option<string>, status: Option<string>)
    requires !Given(customer) && !Given(status)
    ensures FilterOrders(all, q.(customer := customer, status := status))
            == FilterOrders(all, q.(customer := None, status := None))
  {
    var a := q.(customer := customer, status := status);
    var b := q.(customer := None, status := None);
    forall i | 0 <= i < |all|
      ensures OrderSelected(all[i], a) == OrderSelected(all[i], b)
    {
      assert UpToEnd(all[i], a) == UpToEnd(all[i], b);
    }
    FilterAgree(all, o => OrderSelected(o, a), o => OrderSelected(o, b));
  }

  /** The statistics box; `total` is in cents. */
  datatype SalesStats = SalesStats(total: int, pending: nat, delivered: nat)

  predicate IsPending(o: Order) { o.status == Pending }
  predicate IsDelivered(o: Order) { o.status == Delivered }

  function OrderAmount(o: Order): int { o.totalAmount }

  /** Statistics over every order, whatever the filters; the total of no orders is 0. */
  function OrderStats(all: seq<Order>): (s: SalesStats)
    ensures all == [] ==> s == SalesStats(0, 0, 0)
    ensures s.pending + s.delivered <= |all|
    ensures s.total == SumOf(all, OrderAmount)
    ensures s.pending == |Filter(all, IsPending)| && s.delivered == |Filter(all, IsDelivered)|
  {
    DisjointCounts(all, IsPending, IsDelivered);
    SalesStats(SumOf(all, OrderAmount), Count(all, IsPending), Count(all, IsDelivered))
  }

  /** Adding an order adds its amount to the total. */
  lemma NewOrderAddsToTotal(all: seq<Order>, o: Order)
    ensures OrderStats(all + [o]).total == OrderStats(all).total + o.totalAmount
  {
    SumOfAppend(all, [o], OrderAmount);
  }

  datatype SalesPage = SalesPage(orders: seq<Order>, stats: SalesStats)

  /** `sales_list` before pagination: the selected orders newest first, and the statistics. */
  function SalesList(all: seq<Order>, q: SalesQuery): (page: SalesPage)
    ensures SortedBy(page.orders, OrderNewer)
    ensures multiset(page.orders) == multiset(Filter(all, o => OrderSelected(o, q)))
    ensures forall i :: 0 <= i < |page.orders| ==> OrderSelected(page.orders[i], q)
    ensures page.stats == OrderStats(all)
  {
    OrderNewerIsPreorder();
    var listed := Sort(FilterOrders(all, q), OrderNewer);
    PermutationKeeps(listed, FilterOrders(all, q), o => OrderSelected(o, q));
    SalesPage(listed, OrderStats(all))
  }

  /** The statistics do not depend on the filters. */
  lemma StatsIgnoreFilters(all: seq<Order>, q1: SalesQuery, q2: SalesQuery)
    ensures SalesList(all, q1).stats == SalesList(all, q2).stats
  {
  }
}
