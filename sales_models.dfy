/**
 * Sales quotes and orders: their status choices and defaults, the one-to-one
 * link from an order to a quote, and the side effect of `Order.save`, which
 * stamps the customer's `last_purchase` with the order's date at midnight.
 */
module SalesModels {
  import opened Wrappers
  import opened CrmModels
  import Seqs

  type OrderId = int
  type QuoteId = int

  const SecondsPerDay: int := 86400

  /** The timestamp of 00:00 on `date` (`datetime.combine(date, time.min)`). */
  function Midnight(date: Day): (t: Timestamp)
    ensures t % SecondsPerDay == 0 && t / SecondsPerDay == date
  {
    date * SecondsPerDay
  }

  /** Earlier dates have earlier midnights. */
  lemma MidnightMonotone(d1: Day, d2: Day)
    ensures d1 < d2 <==> Midnight(d1) < Midnight(d2)
  {
  }

  datatype QuoteStatus = QuoteDraft | QuoteSent | QuoteAccepted | QuoteRejected {
    function Code(): string {
      match this
      case QuoteDraft => "draft"
      case QuoteSent => "sent"
      case QuoteAccepted => "accepted"
      case QuoteRejected => "rejected"
    }
  }

  datatype OrderStatus = Pending | Confirmed | Shipped | Delivered | Cancelled {
    function Code(): string {
      match this
      case Pending => "pending"
      case Confirmed => "confirmed"
      case Shipped => "shipped"
      case Delivered => "delivered"
      case Cancelled => "cancelled"
    }
  }

  /** The choice stored under `code`, if any: a stored status is one of the listed choices. */
  function ParseOrderStatus(code: string): (s: Option<OrderStatus>)
    ensures s.Some? ==> s.value.Code() == code
    ensures forall t: OrderStatus :: t.Code() == code ==> s == Some(t)
  {
    if code == "pending" then Some(Pending)
    else if code == "confirmed" then Some(Confirmed)
    else if code == "shipped" then Some(Shipped)
    else if code == "delivered" then Some(Delivered)
    else if code == "cancelled" then Some(Cancelled)
    else None
  }

  function ParseQuoteStatus(code: string): (s: Option<QuoteStatus>)
    ensures s.Some? ==> s.value.Code() == code
    ensures forall t: QuoteStatus :: t.Code() == code ==> s == Some(t)
  {
    if code == "draft" then Some(QuoteDraft)
    else if code == "sent" then Some(QuoteSent)
    else if code == "accepted" then Some(QuoteAccepted)
    else if code == "rejected" then Some(QuoteRejected)
    else None
  }

  datatype Quote = Quote(customer: CustomerId, quoteNumber: string, date: Day, totalAmount: int, status: QuoteStatus)

  /** `totalAmount` is in cents. `quote` is the one-to-one link to the quote the order came from. */
  datatype Order = Order(
    customer: CustomerId,
    orderNumber: string,
    date: Day,
    totalAmount: int,
    status: OrderStatus,
    quote: Option<QuoteId>)

  /** `order_by('-date')` on orders: newest first. */
  predicate OrderNewer(a: Order, b: Order) {
    a.date >= b.date
  }

  lemma OrderNewerIsPreorder()
    ensures Seqs.TotalPreorder(OrderNewer)
  {
  }

  /** `order_by('-date')` on quotes: newest first. */
  predicate QuoteNewer(a: Quote, b: Quote) {
    a.date >= b.date
  }

  lemma QuoteNewerIsPreorder()
    ensures Seqs.TotalPreorder(QuoteNewer)
  {
  }

  /** A quote as created with the field defaults: status `draft`, total 0. */
  function NewQuote(customer: CustomerId, quoteNumber: string, date: Day): (q: Quote)
    ensures q.status == QuoteDraft && q.status.Code() == "draft" && q.totalAmount == 0
  {
    Quote(customer, quoteNumber, date, 0, QuoteDraft)
  }

  /** An order as created with the field defaults: status `pending`, total 0, no quote. */
  function NewOrder(customer: CustomerId, orderNumber: string, date: Day): (o: Order)
    ensures o.status == Pending && o.status.Code() == "pending" && o.totalAmount == 0 && o.quote == None
  {
    Order(customer, orderNumber, date, 0, Pending, None)
  }

  /** The customer after the save side effect: only `last_purchase` changes, whatever it was. */
  function StampLastPurchase(c: Customer, date: Day): (r: Customer)
    ensures r.lastPurchase == Some(Midnight(date))
    ensures r.(lastPurchase := c.lastPurchase) == c
  {
    c.(lastPurchase := Some(Midnight(date)))
  }

  /** The overwrite is unconditional: an order dated before the last purchase moves it back. */
  lemma StampCanMoveBackwards(c: Customer, date: Day)
    requires c.lastPurchase.Some? && Midnight(date) < c.lastPurchase.value
    ensures StampLastPurchase(c, date).lastPurchase.value < c.lastPurchase.value
  {
  }

  /** The customer after orders dated `dates` are saved one after another. */
  function StampAll(c: Customer, dates: seq<Day>): Customer
    decreases |dates|
  {
    if dates == [] then c else StampAll(StampLastPurchase(c, dates[0]), dates[1..])
  }

  /**
   * After a run of saves, `last_purchase` is the midnight of the LAST saved
   * order's date, not of the latest date.
   */
  lemma {:induction false} LastSaveWins(c: Customer, dates: seq<Day>)
    requires dates != []
    ensures StampAll(c, dates).lastPurchase == Some(Midnight(dates[|dates| - 1]))
    ensures StampAll(c, dates).(lastPurchase := c.lastPurchase) == c
    decreases |dates|
  {
    if |dates| > 1 {
      LastSaveWins(StampLastPurchase(c, dates[0]), dates[1..]);
    }
  }

  /** An example: saving an order of day 20 and then one of day 5 leaves day 5. */
  lemma ExampleOlderOrderSavedLast(c: Customer)
    ensures StampAll(c, [20, 5]).lastPurchase == Some(Midnight(5))
  {
    LastSaveWins(c, [20, 5]);
  }

  /** The database writes `Order.save` makes, in order. */
  datatype Write = OrderRow(order: OrderId) | LastPurchaseColumn(customer: CustomerId)

  datatype SaveResult = Saved | IntegrityError

  /**
   * The unique and foreign-key constraints of the order table: every order's
   * customer and quote exist, no two orders share an order number, and no
   * two orders share a quote (the one-to-one field).
   */
  ghost predicate Consistent(customers: map<CustomerId, Customer>, quotes: map<QuoteId, Quote>, orders: map<OrderId, Order>) {
    && (forall o :: o in orders ==> orders[o].customer in customers)
    && (forall o :: o in orders && orders[o].quote.Some? ==> orders[o].quote.value in quotes)
    && (forall o1, o2 :: o1 in orders && o2 in orders && o1 != o2 ==> orders[o1].orderNumber != orders[o2].orderNumber)
    && (forall o1, o2 :: o1 in orders && o2 in orders && o1 != o2 && orders[o1].quote.Some? ==> orders[o1].quote != orders[o2].quote)
  }

  /** Whether the row `order` can be stored under `id` without breaking a constraint. */
  predicate Admissible(customers: map<CustomerId, Customer>, quotes: map<QuoteId, Quote>, orders: map<OrderId, Order>,
                       id: OrderId, order: Order) {
    && order.customer in customers
    && (order.quote.Some? ==> order.quote.value in quotes)
    && (forall o | o in orders && o != id :: orders[o].orderNumber != order.orderNumber)
    && (forall o | o in orders && o != id :: order.quote.Some? ==> orders[o].quote != order.quote)
  }

  lemma AdmissibleKeepsConsistent(customers: map<CustomerId, Customer>, quotes: map<QuoteId, Quote>,
                                  orders: map<OrderId, Order>, id: OrderId, order: Order, c: Customer)
    requires Consistent(customers, quotes, orders)
    requires Admissible(customers, quotes, orders, id, order)
    ensures Consistent(customers[order.customer := c], quotes, orders[id := order])
  {
  }

  class SalesDb {
    var customers: map<CustomerId, Customer>
    var quotes: map<QuoteId, Quote>
    var orders: map<OrderId, Order>
    /** Every row write, in the order it reached the database. */
    ghost var writes: seq<Write>

    ghost predicate Valid()
      reads this
    {
      Consistent(customers, quotes, orders)
    }

    /** A store holding the given customers and quotes and no order yet. */
    constructor (customers: map<CustomerId, Customer>, quotes: map<QuoteId, Quote>)
      ensures Valid()
      ensures this.customers == customers && this.quotes == quotes && orders == map[] && writes == []
    {
      this.customers, this.quotes, orders := customers, quotes, map[];
      writes := [];
    }

    /**
     * `Order.save`: stores the order row (insert or update), then overwrites
     * the customer's `last_purchase` with the order date at midnight and
     * writes that one column. A row that breaks a constraint is refused and
     * nothing is written.
     */
    method SaveOrder(id: OrderId, order: Order) returns (r: SaveResult)
      requires Valid()
      modifies this
      ensures Valid()
      ensures r == Saved <==> Admissible(old(customers), old(quotes), old(orders), id, order)
      ensures r == IntegrityError ==>
                customers == old(customers) && orders == old(orders) && writes == old(writes)
      ensures r == Saved ==> orders == old(orders)[id := order] && orders[id] == order
      ensures r == Saved ==>
                customers == old(customers)[order.customer := StampLastPurchase(old(customers[order.customer]), order.date)]
      ensures r == Saved ==> customers[order.customer].lastPurchase == Some(Midnight(order.date))
      ensures r == Saved ==> writes == old(writes) + [OrderRow(id), LastPurchaseColumn(order.customer)]
      ensures quotes == old(quotes)
    {
      if !Admissible(customers, quotes, orders, id, order) {
        return IntegrityError;
      }
      // super().save()
      orders := orders[id := order];
      writes := writes + [OrderRow(id)];
      // self.customer.last_purchase = ...; self.customer.save(update_fields=['last_purchase'])
      var customer := customers[order.customer];
      AdmissibleKeepsConsistent(customers, quotes, old(orders), id, order, StampLastPurchase(customer, order.date));
      customers := customers[order.customer := StampLastPurchase(customer, order.date)];
      writes := writes + [LastPurchaseColumn(order.customer)];
      r := Saved;
    }
  }
}
