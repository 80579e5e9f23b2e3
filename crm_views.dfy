/**
 * The customer list of the CRM (`clientes`): its three optional filters, the
 * most recent order attached to every listed customer, and the statistics
 * box; and the purchase history of one customer (`historial_cliente`).
 */
module CrmViews {
  import opened Wrappers
  import opened Text
  import opened Seqs
  import opened CrmModels
  import opened SalesModels

  // ---------------------------------------------------------------------
  // Filters
  // ---------------------------------------------------------------------

  /** The `nombre`, `tipo` and `estado` query parameters; `None` when absent. */
  datatype CustomerQuery = CustomerQuery(name: Option<string>, clientType: Option<string>, status: Option<string>)

  /** A parameter takes part in the filter when it is present and not empty. */
  predicate Given(param: Option<string>) {
    param.Some? && param.value != ""
  }

  // One step of the chain each: the condition a `.filter(...)` call applies.
  predicate NameStep(c: Customer, q: CustomerQuery) { Given(q.name) && IContains(c.name, q.name.value) }
  predicate TypeStep(c: Customer, q: CustomerQuery) { Given(q.clientType) && c.clientType.Code() == q.clientType.value }
  predicate StatusStep(c: Customer, q: CustomerQuery) { Given(q.status) && c.status.Code() == q.status.value }

  // The conditions of the first one and two steps together.
  predicate UpToName(c: Customer, q: CustomerQuery) { Given(q.name) ==> NameStep(c, q) }
  predicate UpToType(c: Customer, q: CustomerQuery) { UpToName(c, q) && (Given(q.clientType) ==> TypeStep(c, q)) }

  /**
   * Every given parameter holds: the name contains `nombre` ignoring case,
   * the type and status codes equal `tipo` and `estado`.
   */
  predicate CustomerSelected(c: Customer, q: CustomerQuery) {
    UpToType(c, q) && (Given(q.status) ==> StatusStep(c, q))
  }

  function FirstTwoSteps(all: seq<Customer>, q: CustomerQuery): (r: seq<Customer>)
    ensures r == Filter(all, c => UpToType(c, q))
  {
    var s1 := Refine(all, Given(q.name), c => NameStep(c, q));
    RefineFirst(all, Given(q.name), c => NameStep(c, q), c => UpToName(c, q));
    RefineFilter(all, c => UpToName(c, q), Given(q.clientType), c => TypeStep(c, q), c => UpToType(c, q));
    Refine(s1, Given(q.clientType), c => TypeStep(c, q))
  }

  /**
   * The filter chain of `clientes`: name, then type, then status. It keeps
   * exactly the customers that satisfy every given condition, in their order.
   */
  function FilterCustomers(all: seq<Customer>, q: CustomerQuery): (r: seq<Customer>)
    ensures r == Filter(all, c => CustomerSelected(c, q))
    ensures forall c :: c in r <==> c in all && CustomerSelected(c, q)
  {
    var r := Refine(FirstTwoSteps(all, q), Given(q.status), c => StatusStep(c, q));
    assert r == Filter(all, c => CustomerSelected(c, q)) by {
      RefineFilter(all, c => UpToType(c, q), Given(q.status), c => StatusStep(c, q), c => CustomerSelected(c, q));
    }
    assert forall c :: c in r <==> c in all && CustomerSelected(c, q) by {
      FilterMembers(all, c => CustomerSelected(c, q));
    }
    r
  }

  /** A status filter on a code keeps exactly the customers in that one status. */
  lemma StatusFilterSelectsOneStatus(all: seq<Customer>, s: CustomerStatus, i: nat)
    requires i < |all|
    ensures all[i] in FilterCustomers(all, CustomerQuery(None, None, Some(s.Code()))) <==> all[i].status == s
  {
    CodesAreDistinct(DefaultClientType, DefaultClientType, all[i].status, s);
  }

  /** Without parameters the list is every customer, in order. */
  lemma NoParametersKeepsAll(all: seq<Customer>)
    ensures FilterCustomers(all, CustomerQuery(None, None, None)) == all
  {
    FilterKeepsAll(all, c => CustomerSelected(c, CustomerQuery(None, None, None)));
  }

  // ---------------------------------------------------------------------
  // Most recent order
  // ---------------------------------------------------------------------

  /**
   * `customer.order_set.order_by('-date').first()`: one of the customer's
   * orders with the latest date, or `None` when the customer has no order.
   * Among orders of the same date the earliest in `orders` is taken.
   */
  function LatestOrder(orders: seq<Order>, customer: CustomerId): (r: Option<Order>)
    ensures r.None? <==> forall i :: 0 <= i < |orders| ==> orders[i].customer != customer
    ensures r.Some? ==> r.value in orders && r.value.customer == customer
    ensures r.Some? ==> forall i :: 0 <= i < |orders| && orders[i].customer == customer ==> orders[i].date <= r.value.date
  {
    if orders == [] then None
    else
      var rest := LatestOrder(orders[1..], customer);
      assert forall i :: 1 <= i < |orders| ==> orders[i] == orders[1..][i - 1];
      if orders[0].customer == customer && (rest.None? || rest.value.date <= orders[0].date) then
        Some(orders[0])
      else
        rest
  }

  /** The customer's orders, newest first: the query set behind `order_set.order_by('-date')`. */
  function OrdersNewestFirst(orders: seq<Order>, customer: CustomerId): (r: seq<Order>)
    ensures SortedBy(r, OrderNewer)
    ensures multiset(r) == multiset(Filter(orders, (o: Order) => o.customer == customer))
  {
    OrderNewerIsPreorder();
    Sort(Filter(orders, (o: Order) => o.customer == customer), OrderNewer)
  }

  /** The newest of the customer's orders is one of its orders. */
  lemma NewestFirstHead(orders: seq<Order>, customer: CustomerId)
    requires OrdersNewestFirst(orders, customer) != []
    ensures OrdersNewestFirst(orders, customer)[0] in orders
    ensures OrdersNewestFirst(orders, customer)[0].customer == customer
  {
    var s := OrdersNewestFirst(orders, customer);
    FilterMembers(orders, (o: Order) => o.customer == customer);
    assert s[0] in multiset(s);
    assert s[0] in Filter(orders, (o: Order) => o.customer == customer);
  }

  /** The latest order is among the customer's orders sorted newest first, and comes no earlier than their head. */
  lemma LatestAmongNewest(orders: seq<Order>, customer: CustomerId)
    requires LatestOrder(orders, customer).Some?
    ensures OrdersNewestFirst(orders, customer) != []
    ensures OrderNewer(OrdersNewestFirst(orders, customer)[0], LatestOrder(orders, customer).value)
  {
    var s := OrdersNewestFirst(orders, customer);
    var latest := LatestOrder(orders, customer).value;
    var mine := (o: Order) => o.customer == customer;
    FilterMembers(orders, mine);
    assert latest in multiset(Filter(orders, mine));
    assert latest in s;
    OrderNewerIsPreorder();
    SortedHeadLeads(s, OrderNewer, latest);
  }

  /**
   * `LatestOrder` agrees with taking the first of the customer's orders
   * sorted newest first: both exist together and carry the same date.
   */
  lemma LatestIsFirstOfNewest(orders: seq<Order>, customer: CustomerId)
    ensures LatestOrder(orders, customer).Some? <==> OrdersNewestFirst(orders, customer) != []
    ensures LatestOrder(orders, customer).Some? ==>
              LatestOrder(orders, customer).value.date == OrdersNewestFirst(orders, customer)[0].date
  {
    var s := OrdersNewestFirst(orders, customer);
    if s != [] {
      NewestFirstHead(orders, customer);
      var n :| 0 <= n < |orders| && orders[n] == s[0];
    }
    if LatestOrder(orders, customer).Some? {
      LatestAmongNewest(orders, customer);
    }
  }

  /** A listed customer together with its most recent order. */
  datatype ListedCustomer = ListedCustomer(customer: Customer, lastOrder: Option<Order>)

  /**
   * The loop of `clientes` that gives every filtered customer its latest
   * order, keeping the filtered order of the customers.
   */
  method AnnotateLastOrder(customers: seq<Customer>, orders: seq<Order>) returns (listed: seq<ListedCustomer>)
    ensures |listed| == |customers|
    ensures forall i :: 0 <= i < |listed| ==>
              listed[i].customer == customers[i] && listed[i].lastOrder == LatestOrder(orders, customers[i].id)
  {
    listed := [];
    var i := 0;
    while i < |customers|
      invariant 0 <= i <= |customers|
      invariant |listed| == i
      invariant forall k :: 0 <= k < i ==>
                  listed[k].customer == customers[k] && listed[k].lastOrder == LatestOrder(orders, customers[k].id)
    {
      var lastOrder := LatestOrder(orders, customers[i].id);
      listed := listed + [ListedCustomer(customers[i], lastOrder)];
      i := i + 1;
    }
  }

  // ---------------------------------------------------------------------
  // Statistics
  // ---------------------------------------------------------------------

  /** The statistics box; `monthSales` is the fixed placeholder of the view. */
  datatype CustomerStats = CustomerStats(active: nat, monthSales: int, delinquent: nat, newThisMonth: nat)

  predicate IsActive(c: Customer) { c.status == Active }
  predicate IsDelinquent(c: Customer) { c.status == Delinquent }

  /** `created_at__month`: only the month number is compared, not the year. */
  predicate CreatedInMonth(c: Customer, month: int) { c.createdAt.month == month }

  /** The statistics over every customer, whatever the filters; `today` is the server's current date. */
  function ClientStats(all: seq<Customer>, today: CalendarDate): (s: CustomerStats)
    ensures s.active + s.delinquent <= |all|
    ensures s.newThisMonth <= |all|
    ensures s.monthSales == 0
    ensures s.active == |Filter(all, IsActive)| && s.delinquent == |Filter(all, IsDelinquent)|
    ensures s.newThisMonth == |Filter(all, (c: Customer) => CreatedInMonth(c, today.month))|
  {
    DisjointCounts(all, IsActive, IsDelinquent);
    CustomerStats(Count(all, IsActive), 0, Count(all, IsDelinquent),
                  Count(all, (c: Customer) => CreatedInMonth(c, today.month)))
  }

  /** A customer created in the same month of an earlier year is counted as new this month. */
  lemma EarlierYearCountsAsNew(c: Customer, today: CalendarDate)
    requires c.createdAt.month == today.month && c.createdAt.year < today.year
    ensures ClientStats([c], today).newThisMonth == 1
  {
    assert Filter([c], (x: Customer) => CreatedInMonth(x, today.month)) == [c];
  }

  /** The page of `clientes` before pagination. */
  datatype ClientsPage = ClientsPage(customers: seq<ListedCustomer>, stats: CustomerStats)

  /** The customer list: filtered customers with their latest orders, and statistics over all customers. */
  method Clients(all: seq<Customer>, orders: seq<Order>, q: CustomerQuery, today: CalendarDate) returns (page: ClientsPage)
    ensures |page.customers| == |FilterCustomers(all, q)|
    ensures forall i :: 0 <= i < |page.customers| ==>
              page.customers[i].customer == FilterCustomers(all, q)[i]
              && CustomerSelected(page.customers[i].customer, q)
              && page.customers[i].lastOrder == LatestOrder(orders, page.customers[i].customer.id)
    ensures page.stats == ClientStats(all, today)
  {
    var filtered := FilterCustomers(all, q);
    var listed := AnnotateLastOrder(filtered, orders);
    page := ClientsPage(listed, ClientStats(all, today));
  }

  // ---------------------------------------------------------------------
  // Purchase history
  // ---------------------------------------------------------------------

  /** The fields of an invoice the history reads. */
  datatype Invoice = Invoice(customer: CustomerId, dateIssued: Day, totalAmount: int)

  /** `order_by('-date_issued')` on invoices. */
  predicate InvoiceNewer(a: Invoice, b: Invoice) {
    a.dateIssued >= b.dateIssued
  }

  lemma InvoiceNewerIsPreorder()
    ensures TotalPreorder(InvoiceNewer)
  {
  }

  datatype History = History(customer: Customer, orders: seq<Order>, quotes: seq<Quote>, invoices: seq<Invoice>, totalAmount: int)

  /** Whether some customer has the primary key `id`. */
  predicate HasCustomer(customers: seq<Customer>, id: CustomerId) {
    exists i :: 0 <= i < |customers| && customers[i].id == id
  }

  /** The first customer with the primary key `id`. */
  function CustomerById(customers: seq<Customer>, id: CustomerId): (c: Customer)
    requires HasCustomer(customers, id)
    ensures c in customers && c.id == id
  {
    if customers[0].id == id then customers[0]
    else
      assert exists i :: 0 <= i < |customers[1..]| && customers[1..][i].id == id by {
        var i :| 0 <= i < |customers| && customers[i].id == id;
        assert customers[1..][i - 1] == customers[i];
      }
      CustomerById(customers[1..], id)
  }

  /**
   * `historial_cliente`: 404 for an unknown customer; otherwise its orders and
   * quotes newest first, its invoices by issue date newest first, and the sum
   * of its invoice totals (0 when it has none).
   */
  function CustomerHistory(customers: seq<Customer>, id: CustomerId,
                           orders: seq<Order>, quotes: seq<Quote>, invoices: seq<Invoice>): (r: Lookup<History>)
    ensures r.NotFound? <==> !HasCustomer(customers, id)
    ensures r.Found? ==> r.value.customer in customers && r.value.customer.id == id
    ensures r.Found? ==> SortedBy(r.value.orders, OrderNewer)
                         && multiset(r.value.orders) == multiset(Filter(orders, (o: Order) => o.customer == id))
    ensures r.Found? ==> SortedBy(r.value.quotes, QuoteNewer)
                         && multiset(r.value.quotes) == multiset(Filter(quotes, (x: Quote) => x.customer == id))
    ensures r.Found? ==> SortedBy(r.value.invoices, InvoiceNewer)
                         && multiset(r.value.invoices) == multiset(Filter(invoices, (v: Invoice) => v.customer == id))
    ensures r.Found? ==> r.value.totalAmount == SumOf(Filter(invoices, (v: Invoice) => v.customer == id), (v: Invoice) => v.totalAmount)
  {
    if !HasCustomer(customers, id) then NotFound
    else
      OrderNewerIsPreorder();
      QuoteNewerIsPreorder();
      InvoiceNewerIsPreorder();
      var mine := Filter(invoices, (v: Invoice) => v.customer == id);
      Found(History(
        CustomerById(customers, id),
        Sort(Filter(orders, (o: Order) => o.customer == id), OrderNewer),
        Sort(Filter(quotes, (x: Quote) => x.customer == id), QuoteNewer),
        Sort(mine, InvoiceNewer),
        SumOf(mine, (v: Invoice) => v.totalAmount)))
  }

  /** A customer without invoices has a history total of 0. */
  lemma NoInvoicesZeroTotal(customers: seq<Customer>, id: CustomerId, orders: seq<Order>, quotes: seq<Quote>, invoices: seq<Invoice>)
    requires HasCustomer(customers, id)
    requires forall i :: 0 <= i < |invoices| ==> invoices[i].customer != id
    ensures CustomerHistory(customers, id, orders, quotes, invoices).Found?
    ensures CustomerHistory(customers, id, orders, quotes, invoices).value.totalAmount == 0
  {
    FilterNone(invoices, (v: Invoice) => v.customer == id);
  }

  /** Another customer's invoices do not change the history total. */
  lemma {:induction false} OtherInvoicesIgnored(invoices: seq<Invoice>, id: CustomerId, other: Invoice)
    requires other.customer != id
    ensures SumOf(Filter(invoices + [other], (v: Invoice) => v.customer == id), (v: Invoice) => v.totalAmount)
            == SumOf(Filter(invoices, (v: Invoice) => v.customer == id), (v: Invoice) => v.totalAmount)
  {
    var mine := (v: Invoice) => v.customer == id;
    FilterAppend(invoices, [other], mine);
    assert Filter([other], mine) == [];
    assert Filter(invoices, mine) + [] == Filter(invoices, mine);
  }
}
