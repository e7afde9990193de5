/** The administrator's order screen (admin/view_orders.py): the order list,
    the items of one order, the status picker's default, and the status
    update that rewrites `current_status` and appends a history row. */
module OrderAdmin {
  import opened Common
  import opened Schema
  import opened OrderListing
  import Checkout

  /** The statuses the picker offers, in display order. */
  const StatusOptions: seq<string> := ["Processing", "Shipped", "Delivered", "Cancelled"]

  /** The picker's initial position: where the order's current status sits
      among the options, or the first option when it is not one of them. */
  function DefaultStatusIndex(current: string): (r: nat)
    ensures r < |StatusOptions|
    ensures current in StatusOptions ==> StatusOptions[r] == current
    ensures current !in StatusOptions ==> r == 0
  {
    if current == "Processing" then 0
    else if current == "Shipped" then 1
    else if current == "Delivered" then 2
    else if current == "Cancelled" then 3
    else 0
  }

  /** A freshly placed order, and any status spelled otherwise than the
      options (such as lower case), starts the picker at "Processing". */
  lemma PendingDefaultsToProcessing()
    ensures StatusOptions[DefaultStatusIndex("Pending")] == "Processing"
    ensures StatusOptions[DefaultStatusIndex("shipped")] == "Processing"
  {
    assert "Pending" !in StatusOptions;
    assert "shipped" !in StatusOptions;
  }

  /** Leaving the picker untouched selects the order's own status whenever
      that status is one of the options. */
  lemma DefaultIndexRoundTrip(i: nat)
    requires i < |StatusOptions|
    ensures DefaultStatusIndex(StatusOptions[i]) == i
  {
  }

  // -------------------------------------------------------------------- items

  /** One line of an order's item list: product name, quantity, stored price. */
  datatype ShownItem = ShownItem(productName: string, quantity: nat, price: int)

  /** The items of `orderId` joined with the product names; items whose
      product is missing drop out of the inner join. */
  function ItemsShown(items: seq<OrderItem>, products: map<nat, string>, orderId: nat): (r: seq<ShownItem>)
    ensures |r| <= |items|
    ensures forall s :: s in r <==>
      exists it :: it in items && it.orderId == orderId && it.productId in products
        && s == ShownItem(products[it.productId], it.quantity, it.price)
  {
    if |items| == 0 then []
    else
      var it := items[0];
      var rest := ItemsShown(items[1..], products, orderId);
      assert items == [it] + items[1..];
      if it.orderId == orderId && it.productId in products then
        [ShownItem(products[it.productId], it.quantity, it.price)] + rest
      else rest
  }

  /** The item list of a longer table is the lists of its two parts, one
      after the other: the join keeps the table's order and never merges or
      duplicates lines. */
  lemma {:induction false} ItemsShownAppend(a: seq<OrderItem>, b: seq<OrderItem>, products: map<nat, string>, orderId: nat)
    ensures ItemsShown(a + b, products, orderId) == ItemsShown(a, products, orderId) + ItemsShown(b, products, orderId)
    decreases |a|
  {
    if |a| == 0 {
      assert a + b == b;
    } else {
      assert (a + b)[1..] == a[1..] + b;
      ItemsShownAppend(a[1..], b, products, orderId);
    }
  }

  /** One more item row adds exactly one line at the end when it belongs to
      the order and its product exists, and nothing otherwise. */
  lemma ItemsShownSnoc(items: seq<OrderItem>, it: OrderItem, products: map<nat, string>, orderId: nat)
    ensures ItemsShown(items + [it], products, orderId)
            == ItemsShown(items, products, orderId)
               + (if it.orderId == orderId && it.productId in products
                  then [ShownItem(products[it.productId], it.quantity, it.price)] else [])
  {
    ItemsShownAppend(items, [it], products, orderId);
    assert [it][1..] == [];
  }

  // ------------------------------------------------------------ status update

  /** Sets the current status of every row keyed `orderId`. */
  function SetStatus(orders: seq<Order>, orderId: nat, status: string): (r: seq<Order>)
    ensures |r| == |orders|
    ensures forall i :: 0 <= i < |orders| ==>
      r[i] == (if orders[i].orderId == orderId then orders[i].(currentStatus := status) else orders[i])
  {
    if |orders| == 0 then []
    else
      var o := orders[0];
      [if o.orderId == orderId then o.(currentStatus := status) else o]
        + SetStatus(orders[1..], orderId, status)
  }

  /** The update button: rewrite the order's status, then log the change,
      both in one transaction. `statusId` and `now` are what the database
      fills in for the new history row; `dbFails` says that one of the two
      statements fails, which rolls both back. Nothing compares the new
      status with the old one. */
  function UpdateStatus(store: OrderStore, orderId: nat, newStatus: string, statusId: nat, now: int,
                        dbFails: bool): (r: OrderStore)
    ensures dbFails ==> r == store
    ensures !dbFails ==> r.orders == SetStatus(store.orders, orderId, newStatus)
    ensures !dbFails ==> |r.history| == |store.history| + 1 && r.history[..|store.history|] == store.history
    ensures !dbFails ==> r.history[|store.history|] == StatusChange(statusId, orderId, newStatus, now)
    ensures r.items == store.items
  {
    if dbFails then store
    else
      OrderStore(SetStatus(store.orders, orderId, newStatus), store.items,
                 store.history + [StatusChange(statusId, orderId, newStatus, now)])
  }

  /** Choosing the status an order already has still logs a history row. */
  lemma {:induction false} SameStatusStillLogged(store: OrderStore, i: nat, statusId: nat, now: int)
    requires i < |store.orders|
    requires forall j :: 0 <= j < |store.orders| && store.orders[j].orderId == store.orders[i].orderId
               ==> store.orders[j].currentStatus == store.orders[i].currentStatus
    ensures UpdateStatus(store, store.orders[i].orderId, store.orders[i].currentStatus, statusId, now, false).orders
            == store.orders
    ensures |UpdateStatus(store, store.orders[i].orderId, store.orders[i].currentStatus, statusId, now, false).history|
            == |store.history| + 1
  {
    var o := store.orders[i];
    var r := SetStatus(store.orders, o.orderId, o.currentStatus);
    forall j | 0 <= j < |store.orders| ensures r[j] == store.orders[j] {
      if store.orders[j].orderId == o.orderId {
        assert store.orders[j].(currentStatus := o.currentStatus) == store.orders[j];
      }
    }
  }

  /** Two clicks log two rows even when they set the same status. */
  lemma UpdateTwiceLogsTwice(store: OrderStore, orderId: nat, status: string, id1: nat, id2: nat, t1: int, t2: int)
    ensures UpdateStatus(UpdateStatus(store, orderId, status, id1, t1, false), orderId, status, id2, t2, false).orders
            == UpdateStatus(store, orderId, status, id1, t1, false).orders
    ensures |UpdateStatus(UpdateStatus(store, orderId, status, id1, t1, false), orderId, status, id2, t2, false).history|
            == |store.history| + 2
  {
    var once := UpdateStatus(store, orderId, status, id1, t1, false).orders;
    var twice := SetStatus(once, orderId, status);
    assert forall j :: 0 <= j < |once| ==> twice[j] == once[j];
  }

  // ------------------------------------------------------- history agreement

  /** The position of the last history row for `orderId`, if any. */
  function LastIndex(history: seq<StatusChange>, orderId: nat): (r: Option<nat>)
    ensures r.None? <==> forall i :: 0 <= i < |history| ==> history[i].orderId != orderId
    ensures r.Some? ==> r.value < |history| && history[r.value].orderId == orderId
    ensures r.Some? ==> forall j :: r.value < j < |history| ==> history[j].orderId != orderId
    decreases |history|
  {
    if |history| == 0 then None
    else if history[|history| - 1].orderId == orderId then Some(|history| - 1)
    else
      var before := history[..|history| - 1];
      assert forall i :: 0 <= i < |before| ==> before[i] == history[i];
      LastIndex(before, orderId)
  }

  /** The status most recently logged for `orderId`, if any. */
  function LastLogged(history: seq<StatusChange>, orderId: nat): (r: Option<string>)
    ensures r.None? <==> forall i :: 0 <= i < |history| ==> history[i].orderId != orderId
    ensures r.Some? ==> exists i :: 0 <= i < |history| && history[i].orderId == orderId
                                  && history[i].status == r.value
                                  && forall j :: i < j < |history| ==> history[j].orderId != orderId
  {
    match LastIndex(history, orderId)
    case None => None
    case Some(k) => Some(history[k].status)
  }

  /** Each order's current status is the last one logged for it, for every
      order that has a log at all. */
  predicate HistoryAgrees(store: OrderStore)
  {
    forall i :: 0 <= i < |store.orders| ==>
      LastLogged(store.history, store.orders[i].orderId) in {None, Some(store.orders[i].currentStatus)}
  }

  /** A status update keeps the log and the orders in agreement. */
  lemma UpdateKeepsHistoryAgreement(store: OrderStore, orderId: nat, newStatus: string, statusId: nat, now: int,
                                    dbFails: bool)
    requires HistoryAgrees(store)
    ensures HistoryAgrees(UpdateStatus(store, orderId, newStatus, statusId, now, dbFails))
  {
    var r := UpdateStatus(store, orderId, newStatus, statusId, now, dbFails);
    if !dbFails {
      var row := StatusChange(statusId, orderId, newStatus, now);
      forall i | 0 <= i < |r.orders|
        ensures LastLogged(r.history, r.orders[i].orderId) in {None, Some(r.orders[i].currentStatus)}
      {
        assert r.history[..|r.history| - 1] == store.history;
        assert r.history[|r.history| - 1] == row;
      }
    }
  }

  /** Placing an order under an id not yet used keeps the agreement: the new
      order has no log yet and no other row changes. */
  lemma PlaceKeepsHistoryAgreement(store: OrderStore, customerId: nat, cart: Checkout.Cart,
                                   catalog: map<string, Checkout.Offer>, now: int, newOrderId: nat, dbFails: bool)
    requires HistoryAgrees(store)
    requires forall i :: 0 <= i < |store.history| ==> store.history[i].orderId != newOrderId
    ensures HistoryAgrees(Checkout.PlaceOrder(store, customerId, cart, catalog, now, newOrderId, dbFails).store)
  {
    var r := Checkout.PlaceOrder(store, customerId, cart, catalog, now, newOrderId, dbFails);
    if r.outcome.Placed? {
      var n := |store.orders|;
      forall i | 0 <= i < |r.store.orders|
        ensures LastLogged(r.store.history, r.store.orders[i].orderId) in {None, Some(r.store.orders[i].currentStatus)}
      {
        if i < n {
          assert r.store.orders[i] == store.orders[i];
        } else {
          assert r.store.orders[i].orderId == newOrderId;
        }
      }
    }
  }

  // ------------------------------------------------------------------ screen

  /** What the screen shows: the info message, or the order list. */
  datatype Screen = NoOrders | Listing(rows: seq<ListedOrder>)

  /** One click on an update button: the position of the order in the list
      and the position of the chosen status among the options. */
  datatype Click = Click(row: nat, option: nat)

  /** Rendering the screen and acting on at most one click. With no orders
      the screen stops after the message and nothing is written; `dbFails`
      is passed to the update a click triggers. */
  function ViewOrders(store: OrderStore, customers: map<nat, string>, click: Option<Click>,
                      statusId: nat, now: int, dbFails: bool): (r: (Screen, OrderStore))
    ensures r.0.NoOrders? <==> |ListOrders(store.orders, customers)| == 0
    ensures r.0.Listing? ==> r.0.rows == ListOrders(store.orders, customers)
    ensures r.0.NoOrders? || click.None? || dbFails ==> r.1 == store
    ensures r.0.Listing? && click.Some? && click.value.row < |r.0.rows| && click.value.option < |StatusOptions| ==>
      r.1 == UpdateStatus(store, r.0.rows[click.value.row].order.orderId,
                          StatusOptions[click.value.option], statusId, now, dbFails)
  {
    var rows := ListOrders(store.orders, customers);
    if |rows| == 0 then (NoOrders, store)
    else if click.None? || click.value.row >= |rows| || click.value.option >= |StatusOptions| then
      (Listing(rows), store)
    else
      (Listing(rows), UpdateStatus(store, rows[click.value.row].order.orderId,
                                   StatusOptions[click.value.option], statusId, now, dbFails))
  }
}
