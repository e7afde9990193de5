/** The rules data_insertion.py follows when it builds individual rows:
    unique logins and codes derived from the row id, orders that ship to one
    of their customer's addresses, deliveries and transactions derived from
    a parent order, and the status-history rows with their running id.
    Every random draw is a parameter (a `pick`), so each rule is a plain
    function of its inputs; draws that cannot matter to the stated
    properties (names, passwords, sentences) are left out of the rows. */
module GeneratedRows {
  import opened Common
  import opened Text
  import opened Schema

  /** The statuses an order and a status-history row are drawn from. */
  const OrderStatuses: seq<string> := ["Pending", "Processing", "Shipped", "Delivered", "Cancelled"]

  /** The statuses a delivery is drawn from. */
  const DeliveryStatuses: seq<string> := ["Preparing", "Shipped", "In Transit", "Delivered", "Failed"]

  /** The payment methods a transaction is drawn from. */
  const PaymentMethods: seq<string> := ["Credit Card", "Debit Card", "PayPal", "Bank Transfer"]

  // ----------------------------------------------------------- ids and codes

  /** A fixed prefix, the decimal id and a fixed suffix: the shape of the
      generated emails and user names. The id reads back from between the
      two. */
  function AffixedId(prefix: string, i: nat, suffix: string): (r: string)
    ensures |r| > |prefix| + |suffix|
    ensures r[..|prefix|] == prefix && r[|r| - |suffix|..] == suffix
    ensures AllDigits(r[|prefix|..|r| - |suffix|]) && ParseDecimal(r[|prefix|..|r| - |suffix|]) == i
  {
    var r := prefix + Decimal(i) + suffix;
    assert r[|prefix|..|r| - |suffix|] == Decimal(i);
    ParseDecimalOfDecimal(i);
    r
  }

  function AdminEmail(i: nat): (r: string)
  {
    AffixedId("admin", i, "@example.com")
  }

  function AdminUserName(i: nat): (r: string)
  {
    AffixedId("admin_", i, "")
  }

  function CustomerEmail(i: nat): (r: string)
  {
    AffixedId("customer", i, "@example.com")
  }

  function SupplierEmail(i: nat): (r: string)
  {
    AffixedId("supplier", i, "@example.com")
  }

  /** A fixed prefix and suffix around the decimal id determine the id. */
  lemma AffixedIdInjective(prefix: string, suffix: string, i: nat, j: nat)
    requires AffixedId(prefix, i, suffix) == AffixedId(prefix, j, suffix)
    ensures i == j
  {
    var s := AffixedId(prefix, i, suffix);
    assert ParseDecimal(s[|prefix|..|s| - |suffix|]) == i;
  }

  /** Generated admin emails and user names, and customer and supplier
      emails, never repeat: distinct ids give distinct strings. */
  lemma GeneratedLoginsUnique(i: nat, j: nat)
    requires i != j
    ensures AdminEmail(i) != AdminEmail(j)
    ensures AdminUserName(i) != AdminUserName(j)
    ensures CustomerEmail(i) != CustomerEmail(j)
    ensures SupplierEmail(i) != SupplierEmail(j)
  {
    if AdminEmail(i) == AdminEmail(j) {
      AffixedIdInjective("admin", "@example.com", i, j);
    }
    if AdminUserName(i) == AdminUserName(j) {
      AffixedIdInjective("admin_", "", i, j);
    }
    if CustomerEmail(i) == CustomerEmail(j) {
      AffixedIdInjective("customer", "@example.com", i, j);
    }
    if SupplierEmail(i) == SupplierEmail(j) {
      AffixedIdInjective("supplier", "@example.com", i, j);
    }
  }

  /** A drawn text followed by a space and the row id, as category, supplier
      and product names are built. */
  function NumberedName(drawn: string, i: nat): (r: string)
    ensures |r| > |drawn| + 1
    ensures r[..|drawn|] == drawn && r[|drawn|] == ' '
    ensures AllDigits(r[|drawn| + 1..]) && ParseDecimal(r[|drawn| + 1..]) == i
  {
    var r := drawn + " " + Decimal(i);
    assert r[|drawn| + 1..] == Decimal(i);
    ParseDecimalOfDecimal(i);
    r
  }

  /** A category name: a drawn main word, a drawn sub-word and the id. */
  function CategoryName(mainWord: string, subWord: string, i: nat): (r: string)
    ensures |r| > |mainWord| + |subWord| + 2
    ensures r[..|mainWord|] == mainWord && r[|mainWord|] == ' '
    ensures r[|mainWord| + 1..|mainWord| + 1 + |subWord|] == subWord && r[|mainWord| + 1 + |subWord|] == ' '
    ensures AllDigits(r[|mainWord| + |subWord| + 2..]) && ParseDecimal(r[|mainWord| + |subWord| + 2..]) == i
  {
    NumberedName(mainWord + " " + subWord, i)
  }

  /** Whatever text was drawn, numbered names of different ids differ: the
      id is everything after the last space, since digits hold no space. */
  lemma NumberedNamesUnique(a: string, b: string, i: nat, j: nat)
    requires i != j
    ensures NumberedName(a, i) != NumberedName(b, j)
  {
    if NumberedName(a, i) == NumberedName(b, j) {
      var di, dj := Decimal(i), Decimal(j);
      if |di| < |dj| {
        SpaceBeforeDigits(a, di, b, dj);
      } else if |dj| < |di| {
        SpaceBeforeDigits(b, dj, a, di);
      }
    }
  }

  /** A string cannot end in a space followed by `d` and also in more
      digits than `d` has. */
  lemma SpaceBeforeDigits(a: string, d: string, b: string, e: string)
    requires AllDigits(e) && |d| < |e|
    ensures a + " " + d != b + " " + e
  {
    var s, t := a + " " + d, b + " " + e;
    if |s| == |t| {
      var k := |s| - |d| - 1;
      assert s[k] == ' ';
      assert t[k] == e[|e| - |d| - 1];
    }
  }

  /** A discount code: "DIS" and the id padded with zeros to seven digits. */
  function DiscountCode(i: nat): (r: string)
    ensures |r| >= 10 && r[..3] == "DIS"
  {
    "DIS" + ZeroPadded(i, 7)
  }

  /** Discount codes never repeat. */
  lemma DiscountCodesUnique(i: nat, j: nat)
    requires i != j
    ensures DiscountCode(i) != DiscountCode(j)
  {
    if DiscountCode(i) == DiscountCode(j) {
      assert DiscountCode(i)[3..] == ZeroPadded(i, 7);
      assert DiscountCode(j)[3..] == ZeroPadded(j, 7);
      ParseZeroPadded(i, 7);
      ParseZeroPadded(j, 7);
    }
  }

  /** Below ten million the code is exactly ten characters; from there on
      it grows. */
  lemma DiscountCodeLength(i: nat)
    ensures |DiscountCode(i)| == 10 <==> i < 10000000
  {
    DecimalLength(i, 7);
  }

  /** A number has more than `k` digits exactly when it is at least 10^k
      (for `k` of one or more: zero has one digit). */
  lemma {:induction false} DecimalLength(n: nat, k: nat)
    requires k >= 1
    ensures |Decimal(n)| <= k <==> n < Pow10(k)
    decreases n
  {
    assert Pow10(k) == 10 * Pow10(k - 1);
    if n >= 10 && k > 1 {
      DecimalLength(n / 10, k - 1);
      var p := Pow10(k - 1);
      assert Pow10(k) == 10 * p;
      assert n == 10 * (n / 10) + n % 10;
      assert n / 10 < p <==> n < 10 * p;
    } else if n >= 10 {
      assert |Decimal(n)| == |Decimal(n / 10)| + 1;
    }
  }

  function Pow10(k: nat): (r: nat)
    ensures r >= 1
  {
    if k == 0 then 1 else 10 * Pow10(k - 1)
  }

  // ------------------------------------------------------------------ orders

  /** The addresses on file for one customer, in table order. */
  function AddressesOf(addresses: seq<CustomerAddress>, customerId: nat): (r: seq<CustomerAddress>)
    ensures forall a :: a in r <==> a in addresses && a.customerId == customerId
  {
    if |addresses| == 0 then []
    else
      var rest := AddressesOf(addresses[1..], customerId);
      assert addresses == [addresses[0]] + addresses[1..];
      if addresses[0].customerId == customerId then [addresses[0]] + rest else rest
  }

  /** The draws behind one generated order: which customer, the date and
      total, both status draws, whether a discount applies (the 30% branch)
      and which one, and which of the customer's addresses. */
  datatype OrderDraws = OrderDraws(
    customer: nat,
    orderDate: int,
    total: nat,
    currentStatus: nat,
    useDiscount: bool,
    discount: nat,
    address: nat,
    status: nat)

  /** One generated order. Drawing from an empty customer list, or from an
      empty discount list when the discount branch is taken, raises; that is
      `None`. */
  function MakeOrder(orderId: nat, customers: seq<Customer>, addresses: seq<CustomerAddress>,
                     discounts: seq<Discount>, d: OrderDraws): (r: Option<Order>)
    ensures r.None? <==> |customers| == 0 || (d.useDiscount && |discounts| == 0)
    ensures r.Some? ==> r.value.orderId == orderId && r.value.orderDate == d.orderDate
    ensures r.Some? ==> exists c :: c in customers && c.customerId == r.value.customerId
    ensures r.Some? ==> r.value.currentStatus in OrderStatuses
    ensures r.Some? ==> r.value.status.Some? && r.value.status.value in OrderStatuses
    ensures r.Some? ==> (r.value.discountId.Some? <==> d.useDiscount)
    ensures r.Some? && r.value.discountId.Some? ==>
      exists x :: x in discounts && x.discountId == r.value.discountId.value
    ensures r.Some? ==>
      (r.value.shippingAddressId.None? <==> |AddressesOf(addresses, r.value.customerId)| == 0)
    ensures r.Some? && r.value.shippingAddressId.Some? ==>
      exists a :: a in addresses && a.addressId == r.value.shippingAddressId.value
                 && a.customerId == r.value.customerId
  {
    if |customers| == 0 || (d.useDiscount && |discounts| == 0) then None
    else
      var customer := Choose(customers, d.customer);
      var own := AddressesOf(addresses, customer.customerId);
      var discountId := if d.useDiscount then Some(Choose(discounts, d.discount).discountId) else None;
      var addressId := if |own| > 0 then Some(Choose(own, d.address).addressId) else None;
      Some(Order(orderId, customer.customerId, d.orderDate, d.total,
                 Choose(OrderStatuses, d.currentStatus), discountId, addressId,
                 Some(Choose(OrderStatuses, d.status))))
  }

  /** A customer without an address gets orders without a shipping address;
      one with addresses always gets one of them. */
  lemma ShippingAddressIsCustomers(orderId: nat, customers: seq<Customer>, addresses: seq<CustomerAddress>,
                                   discounts: seq<Discount>, d: OrderDraws)
    requires MakeOrder(orderId, customers, addresses, discounts, d).Some?
    ensures var o := MakeOrder(orderId, customers, addresses, discounts, d).value;
      (forall a :: a in addresses ==> a.customerId != o.customerId) <==> o.shippingAddressId.None?
  {
    var o := MakeOrder(orderId, customers, addresses, discounts, d).value;
    var own := AddressesOf(addresses, o.customerId);
    if |own| > 0 {
      assert own[0] in own;
    }
  }

  // -------------------------------------------------------------- deliveries

  /** The draws behind one delivery: which order, which status, and how
      many days after the order date the delivery date falls. */
  datatype DeliveryDraws = DeliveryDraws(order: nat, status: nat, daysAfter: nat)

  /** The delivery for a drawn order. The date is set when the order's
      `status` column (not its `current_status`) is Shipped or Delivered,
      and is never before the order date; the delivery's own status is an
      independent draw. */
  function DeliveryFor(deliveryId: nat, order: Order, d: DeliveryDraws): (r: Delivery)
    ensures r.deliveryId == deliveryId && r.orderId == order.orderId
    ensures r.status in DeliveryStatuses
    ensures r.deliveryDate.Some? <==> order.status == Some("Shipped") || order.status == Some("Delivered")
    ensures r.deliveryDate.Some? ==> r.deliveryDate.value >= order.orderDate
  {
    var date := if order.status in {Some("Shipped"), Some("Delivered")} then Some(order.orderDate + d.daysAfter)
                else None;
    Delivery(deliveryId, order.orderId, Choose(DeliveryStatuses, d.status), date)
  }

  /** One generated delivery; drawing from an empty order list raises. */
  function MakeDelivery(deliveryId: nat, orders: seq<Order>, d: DeliveryDraws): (r: Option<Delivery>)
    ensures r.None? <==> |orders| == 0
    ensures r.Some? ==> exists o :: o in orders && r.value == DeliveryFor(deliveryId, o, d)
  {
    if |orders| == 0 then None else Some(DeliveryFor(deliveryId, Choose(orders, d.order), d))
  }

  /** The date depends on the `status` column alone: two orders that differ
      only in `current_status` get the same delivery, so an order whose
      current status reads Shipped may still have no delivery date. */
  lemma DeliveryIgnoresCurrentStatus(deliveryId: nat, order: Order, current: string, d: DeliveryDraws)
    ensures DeliveryFor(deliveryId, order.(currentStatus := current), d) == DeliveryFor(deliveryId, order, d)
    ensures order.status == Some("Pending") ==>
      DeliveryFor(deliveryId, order.(currentStatus := "Shipped"), d).deliveryDate.None?
  {
  }

  // ------------------------------------------------------------ transactions

  /** The transaction for a drawn order: the order's total and date, and
      Refunded exactly when the order's `status` column is Cancelled. */
  function TransactionFor(transactionId: nat, order: Order, methodPick: nat): (r: Transaction)
    ensures r.transactionId == transactionId && r.orderId == order.orderId
    ensures r.amount == order.totalAmount && r.transactionDate == order.orderDate
    ensures r.status == "Refunded" <==> order.status == Some("Cancelled")
    ensures r.status in {"Completed", "Refunded"}
    ensures r.paymentMethod in PaymentMethods
  {
    var status := if order.status != Some("Cancelled") then "Completed" else "Refunded";
    Transaction(transactionId, order.orderId, order.totalAmount, status, order.orderDate,
                Choose(PaymentMethods, methodPick))
  }

  /** One generated transaction; drawing from an empty order list raises. */
  function MakeTransaction(transactionId: nat, orders: seq<Order>, orderPick: nat, methodPick: nat)
    : (r: Option<Transaction>)
    ensures r.None? <==> |orders| == 0
    ensures r.Some? ==> exists o :: o in orders && r.value == TransactionFor(transactionId, o, methodPick)
  {
    if |orders| == 0 then None else Some(TransactionFor(transactionId, Choose(orders, orderPick), methodPick))
  }

  // ---------------------------------------------------------- status history

  /** The draws behind the status history: for the `g`-th picked order,
      which order and how many updates (1 to 3); for the row with id `k`,
      its status and how long after the order date it was logged. */
  datatype HistoryDraws = HistoryDraws(order: nat -> nat, groupSize: nat -> nat,
                                       status: nat -> nat, delay: nat -> nat)

  /** Group numbers start at 0 and step up by at most one from row to row:
      each group is a run of consecutive rows. */
  predicate GroupsInOrder(groupOf: seq<nat>)
  {
    && (|groupOf| > 0 ==> groupOf[0] == 0)
    && forall k :: 0 <= k < |groupOf| - 1 ==> groupOf[k] <= groupOf[k + 1] <= groupOf[k] + 1
  }

  /** No group has four rows. */
  predicate AtMostThreePerGroup(groupOf: seq<nat>)
  {
    forall k :: 0 <= k < |groupOf| - 3 ==> groupOf[k] < groupOf[k + 3]
  }

  /** The history row with id `id` for `order`. */
  function HistoryRow(id: nat, order: Order, d: HistoryDraws): (r: StatusChange)
    ensures r.statusId == id && r.orderId == order.orderId
    ensures r.status in OrderStatuses && r.updatedAt >= order.orderDate
  {
    StatusChange(id, order.orderId, Choose(OrderStatuses, d.status(id)), order.orderDate + d.delay(id))
  }

  /** The rows so far are history rows for the orders their groups picked,
      numbered from 1, in groups of one to three consecutive rows. */
  predicate HistorySoFar(orders: seq<Order>, d: HistoryDraws, rows: seq<StatusChange>, groupOf: seq<nat>)
  {
    && |orders| > 0 && |groupOf| == |rows|
    && (forall k :: 0 <= k < |rows| ==> rows[k] == HistoryRow(k + 1, Choose(orders, d.order(groupOf[k])), d))
    && GroupsInOrder(groupOf) && AtMostThreePerGroup(groupOf)
  }

  /** Group `g` holds the last `j` rows; every earlier row belongs to an
      earlier group, the one just before `g` when `g` has no rows yet. */
  predicate TailInGroup(groupOf: seq<nat>, g: nat, j: nat)
  {
    && j <= |groupOf|
    && (forall k :: 0 <= k < |groupOf| - j ==> groupOf[k] < g)
    && (forall k :: |groupOf| - j <= k < |groupOf| ==> groupOf[k] == g)
    && (j == 0 && |groupOf| > 0 ==> groupOf[|groupOf| - 1] == g - 1)
    && (|groupOf| == 0 ==> g == 0)
  }

  /** Logging one more update of the current order. */
  lemma AppendToGroup(orders: seq<Order>, d: HistoryDraws, rows: seq<StatusChange>, groupOf: seq<nat>, g: nat, j: nat)
    requires HistorySoFar(orders, d, rows, groupOf) && TailInGroup(groupOf, g, j) && j < 3
    ensures HistorySoFar(orders, d, rows + [HistoryRow(|rows| + 1, Choose(orders, d.order(g)), d)], groupOf + [g])
    ensures TailInGroup(groupOf + [g], g, j + 1)
  {
    GroupGrows(groupOf, g, j);
    var gs := groupOf + [g];
    var rs := rows + [HistoryRow(|rows| + 1, Choose(orders, d.order(g)), d)];
    forall k | 0 <= k < |rs| ensures rs[k] == HistoryRow(k + 1, Choose(orders, d.order(gs[k])), d) {
      if k < |rows| {
        assert rs[k] == rows[k] && gs[k] == groupOf[k];
      }
    }
  }

  /** A group that has fewer than three rows can take one more without
      breaking the grouping. */
  lemma GroupGrows(groupOf: seq<nat>, g: nat, j: nat)
    requires GroupsInOrder(groupOf) && AtMostThreePerGroup(groupOf) && TailInGroup(groupOf, g, j) && j < 3
    ensures GroupsInOrder(groupOf + [g]) && AtMostThreePerGroup(groupOf + [g])
    ensures TailInGroup(groupOf + [g], g, j + 1)
  {
    OrderGrows(groupOf, g, j);
    CountGrows(groupOf, g, j);
    TailGrows(groupOf, g, j);
  }

  lemma {:induction false} OrderGrows(groupOf: seq<nat>, g: nat, j: nat)
    requires GroupsInOrder(groupOf) && TailInGroup(groupOf, g, j)
    ensures GroupsInOrder(groupOf + [g])
  {
    var gs := groupOf + [g];
    assert forall k :: 0 <= k < |groupOf| ==> gs[k] == groupOf[k];
  }

  lemma {:induction false} CountGrows(groupOf: seq<nat>, g: nat, j: nat)
    requires GroupsInOrder(groupOf) && AtMostThreePerGroup(groupOf) && TailInGroup(groupOf, g, j) && j < 3
    ensures AtMostThreePerGroup(groupOf + [g])
  {
    var gs := groupOf + [g];
    assert forall k :: 0 <= k < |groupOf| ==> gs[k] == groupOf[k];
  }

  lemma {:induction false} TailGrows(groupOf: seq<nat>, g: nat, j: nat)
    requires TailInGroup(groupOf, g, j)
    ensures TailInGroup(groupOf + [g], g, j + 1)
  {
    var gs := groupOf + [g];
    assert forall k :: 0 <= k < |groupOf| ==> gs[k] == groupOf[k];
  }

  /** `generate_orderstatushistory_data`: pick an order, log 1 to 3 updates
      for it, each with the next status id, and stop as soon as `n` rows
      exist. Returns the rows, the group (picked-order number) of each row,
      and whether the generator returned normally: picking from an empty
      order list raises. */
  method GenerateHistory(orders: seq<Order>, n: nat, d: HistoryDraws)
      returns (rows: seq<StatusChange>, groupOf: seq<nat>, ok: bool)
    ensures ok <==> n == 0 || |orders| > 0
    ensures ok ==> |rows| == n
    ensures !ok ==> |rows| == 0
    ensures |groupOf| == |rows|
    ensures forall k :: 0 <= k < |rows| ==> |orders| > 0 && rows[k] == HistoryRow(k + 1, Choose(orders, d.order(groupOf[k])), d)
    ensures GroupsInOrder(groupOf) && AtMostThreePerGroup(groupOf)
  {
    if |orders| == 0 {
      return [], [], n == 0;
    }
    rows, groupOf, ok := [], [], true;
    var g := 0;
    while g < n && |rows| < n
      invariant g <= |rows| <= n
      invariant HistorySoFar(orders, d, rows, groupOf) && TailInGroup(groupOf, g, 0)
    {
      rows, groupOf := LogUpdates(orders, n, d, g, rows, groupOf);
      g := g + 1;
    }
  }

  /** The inner loop for the `g`-th picked order: up to its drawn number of
      updates, stopping early once `n` rows exist. */
  method LogUpdates(orders: seq<Order>, n: nat, d: HistoryDraws, g: nat, rows: seq<StatusChange>, groupOf: seq<nat>)
      returns (rows': seq<StatusChange>, groupOf': seq<nat>)
    requires g <= |rows| < n
    requires HistorySoFar(orders, d, rows, groupOf) && TailInGroup(groupOf, g, 0)
    ensures g + 1 <= |rows'| <= n
    ensures HistorySoFar(orders, d, rows', groupOf') && TailInGroup(groupOf', g + 1, 0)
  {
    var order := Choose(orders, d.order(g));
    var size := PickInRange(1, 3, d.groupSize(g));
    var j := 0;
    rows', groupOf' := rows, groupOf;
    while j < size && |rows'| < n
      invariant j <= size && |rows'| == |rows| + j <= n
      invariant HistorySoFar(orders, d, rows', groupOf') && TailInGroup(groupOf', g, j)
    {
      AppendToGroup(orders, d, rows', groupOf', g, j);
      rows' := rows' + [HistoryRow(|rows'| + 1, order, d)];
      groupOf' := groupOf' + [g];
      j := j + 1;
    }
  }
}
