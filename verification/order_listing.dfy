/** Listing orders newest first, as both the customer's "My Orders" screen
    and the administrator's order screen ask the database to do
    (`ORDER BY order_date DESC`). SQL leaves the order of rows with equal
    dates open; the model fixes one order (an insertion sort) and states only
    what the query promises: the same rows, dates never increasing. */
module OrderListing {
  import opened Schema

  /** Dates never increase from one row to the next. */
  predicate SortedDesc<T>(s: seq<T>, date: T -> int)
  {
    forall i, j :: 0 <= i < j < |s| ==> date(s[i]) >= date(s[j])
  }

  /** Every row of `s` is dated no later than `d`. */
  predicate AllAtMost<T>(s: seq<T>, date: T -> int, d: int)
  {
    forall i :: 0 <= i < |s| ==> date(s[i]) <= d
  }

  lemma ConsSorted<T>(h: T, t: seq<T>, date: T -> int)
    requires SortedDesc(t, date) && AllAtMost(t, date, date(h))
    ensures SortedDesc([h] + t, date)
  {
    forall i, j | 0 <= i < j < |[h] + t| ensures date(([h] + t)[i]) >= date(([h] + t)[j]) {
      if i > 0 {
        assert ([h] + t)[i] == t[i - 1];
      }
      assert ([h] + t)[j] == t[j - 1];
    }
  }

  lemma ConsAtMost<T>(h: T, t: seq<T>, date: T -> int, d: int)
    requires AllAtMost(t, date, d) && date(h) <= d
    ensures AllAtMost([h] + t, date, d)
  {
    forall i | 0 < i < |[h] + t| ensures date(([h] + t)[i]) <= d {
      assert ([h] + t)[i] == t[i - 1];
    }
  }

  /** Places `x` in a newest-first sequence so that it stays newest first. */
  function InsertDesc<T>(x: T, s: seq<T>, date: T -> int): (r: seq<T>)
    requires SortedDesc(s, date)
    ensures multiset(r) == multiset(s) + multiset{x}
    ensures SortedDesc(r, date)
    ensures forall d :: AllAtMost(s, date, d) && date(x) <= d ==> AllAtMost(r, date, d)
  {
    if |s| == 0 then [x]
    else if date(x) >= date(s[0]) then
      ConsSorted(x, s, date);
      ConsAtMostAll(x, s, date);
      [x] + s
    else
      var h := s[0];
      var t := s[1..];
      assert s == [h] + t;
      assert AllAtMost(t, date, date(h));
      var rest := InsertDesc(x, t, date);
      ConsSorted(h, rest, date);
      ConsAtMostAll(h, rest, date);
      [h] + rest
  }

  lemma ConsAtMostAll<T>(h: T, t: seq<T>, date: T -> int)
    ensures forall d :: AllAtMost(t, date, d) && date(h) <= d ==> AllAtMost([h] + t, date, d)
  {
    forall d | AllAtMost(t, date, d) && date(h) <= d ensures AllAtMost([h] + t, date, d) {
      ConsAtMost(h, t, date, d);
    }
  }

  /** The rows of `s`, newest first. */
  function SortDesc<T>(s: seq<T>, date: T -> int): (r: seq<T>)
    ensures multiset(r) == multiset(s)
    ensures SortedDesc(r, date)
  {
    if |s| == 0 then []
    else
      assert s == [s[0]] + s[1..];
      InsertDesc(s[0], SortDesc(s[1..], date), date)
  }

  /** The order date, as the sort key of an `orders` row. */
  function OrderDate(o: Order): int
  {
    o.orderDate
  }

  /** The rows of `orders` that belong to `customerId`, in table order. */
  function OfCustomer(orders: seq<Order>, customerId: nat): (r: seq<Order>)
    ensures forall o :: o in r <==> o in orders && o.customerId == customerId
  {
    if |orders| == 0 then []
    else
      var rest := OfCustomer(orders[1..], customerId);
      assert orders == [orders[0]] + orders[1..];
      if orders[0].customerId == customerId then [orders[0]] + rest else rest
  }

  /** Each of the customer's orders is kept as often as it is stored, and
      no one else's order is kept. */
  lemma {:induction false} OfCustomerCounts(orders: seq<Order>, customerId: nat)
    ensures forall o: Order :: o.customerId == customerId ==>
      multiset(OfCustomer(orders, customerId))[o] == multiset(orders)[o]
    ensures forall o: Order :: o.customerId != customerId ==> multiset(OfCustomer(orders, customerId))[o] == 0
  {
    if |orders| > 0 {
      OfCustomerCounts(orders[1..], customerId);
      assert orders == [orders[0]] + orders[1..];
    }
  }

  /** "My Orders": the signed-in customer's orders and no one else's, each
      as often as it is stored, newest first. */
  function MyOrders(orders: seq<Order>, customerId: nat): (r: seq<Order>)
    ensures SortedDesc(r, OrderDate)
    ensures forall o :: o in r <==> o in orders && o.customerId == customerId
    ensures forall o: Order :: o.customerId == customerId ==> multiset(r)[o] == multiset(orders)[o]
  {
    OfCustomerCounts(orders, customerId);
    SortDesc(OfCustomer(orders, customerId), OrderDate)
  }

  /** A row of the administrator's order list: the order joined with the
      name of the customer who placed it. */
  datatype ListedOrder = ListedOrder(order: Order, customerName: string)

  function ListedDate(l: ListedOrder): int
  {
    l.order.orderDate
  }

  /** The inner join of `orders` with `customer` on `customer_id`; the
      customer table is keyed by its primary key, so each order meets at
      most one customer. Orders whose customer is missing drop out. */
  function JoinCustomers(orders: seq<Order>, customers: map<nat, string>): (r: seq<ListedOrder>)
    ensures |r| <= |orders|
    ensures forall l :: l in r <==>
      l.order in orders && l.order.customerId in customers
      && l.customerName == customers[l.order.customerId]
  {
    if |orders| == 0 then []
    else
      var o := orders[0];
      var rest := JoinCustomers(orders[1..], customers);
      assert orders == [o] + orders[1..];
      if o.customerId in customers then [ListedOrder(o, customers[o.customerId])] + rest
      else rest
  }

  /** The administrator's order list: every order whose customer exists,
      with that customer's name, newest first. */
  function ListOrders(orders: seq<Order>, customers: map<nat, string>): (r: seq<ListedOrder>)
    ensures SortedDesc(r, ListedDate)
    ensures |r| <= |orders|
    ensures forall l :: l in r <==>
      l.order in orders && l.order.customerId in customers
      && l.customerName == customers[l.order.customerId]
  {
    var joined := JoinCustomers(orders, customers);
    var r := SortDesc(joined, ListedDate);
    assert |r| == |multiset(r)| == |joined|;
    assert forall l :: l in r <==> l in joined by {
      forall l ensures l in r <==> l in joined {
        assert l in r <==> l in multiset(r);
        assert l in joined <==> l in multiset(joined);
      }
    }
    r
  }
}
