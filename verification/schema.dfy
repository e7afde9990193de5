/** The relational tables the screens and scripts read and write, one
    immutable record per row. Money is held in integer cents and dates and
    timestamps as integers (days or seconds, as the column requires). */
module Schema {
  import opened Common

  /** A row of `orders`. `currentStatus` is the column the screens read and
      write; `status` is a second, separate column that only the bulk
      generator fills. */
  datatype Order = Order(
    orderId: nat,
    customerId: nat,
    orderDate: int,
    totalAmount: int,
    currentStatus: string,
    discountId: Option<nat>,
    shippingAddressId: Option<nat>,
    status: Option<string>)

  /** A row of `orderitem`; its own serial key is not modelled. */
  datatype OrderItem = OrderItem(orderId: nat, productId: nat, quantity: nat, price: int)

  /** A row of `orderstatushistory`. */
  datatype StatusChange = StatusChange(statusId: nat, orderId: nat, status: string, updatedAt: int)

  datatype Customer = Customer(customerId: nat, name: string)

  datatype CustomerAddress = CustomerAddress(addressId: nat, customerId: nat)

  /** A row of `supplier`; `phone` is nullable. */
  datatype Supplier = Supplier(supplierId: nat, name: string, email: string, phone: Option<string>)

  datatype Category = Category(categoryId: nat, categoryName: string)

  datatype Product = Product(
    productId: nat,
    name: string,
    description: string,
    price: nat,
    stockQuantity: nat,
    categoryId: nat,
    supplierId: nat)

  datatype Discount = Discount(discountId: nat, code: string, validFrom: int, validTo: int)

  datatype Delivery = Delivery(deliveryId: nat, orderId: nat, status: string, deliveryDate: Option<int>)

  datatype Transaction = Transaction(
    transactionId: nat,
    orderId: nat,
    amount: int,
    status: string,
    transactionDate: int,
    paymentMethod: string)

  /** The order aggregate: orders, their items and their status history. */
  datatype OrderStore = OrderStore(orders: seq<Order>, items: seq<OrderItem>, history: seq<StatusChange>)

  /** `DELETE FROM t WHERE key = :id` on a table held as a sequence: exactly
      the rows whose key is `id` disappear; every other row keeps its place
      and its multiplicity. */
  function DeleteWhere<T(!new)>(rows: seq<T>, key: T -> nat, id: nat): (r: seq<T>)
    ensures |r| <= |rows|
    ensures forall x :: x in r <==> x in rows && key(x) != id
  {
    if |rows| == 0 then []
    else
      var rest := DeleteWhere(rows[1..], key, id);
      assert rows == [rows[0]] + rows[1..];
      if key(rows[0]) == id then rest else [rows[0]] + rest
  }

  /** Each row whose key is not `id` survives as often as it was stored;
      no row with key `id` survives. */
  lemma {:induction false} DeleteWhereCounts<T(!new)>(rows: seq<T>, key: T -> nat, id: nat)
    ensures forall x :: key(x) != id ==> multiset(DeleteWhere(rows, key, id))[x] == multiset(rows)[x]
    ensures forall x :: key(x) == id ==> multiset(DeleteWhere(rows, key, id))[x] == 0
  {
    if |rows| > 0 {
      DeleteWhereCounts(rows[1..], key, id);
      assert rows == [rows[0]] + rows[1..];
    }
  }

  /** Deleting the same key twice changes nothing the second time. */
  lemma {:induction false} DeleteWhereIdempotent<T(!new)>(rows: seq<T>, key: T -> nat, id: nat)
    ensures DeleteWhere(DeleteWhere(rows, key, id), key, id) == DeleteWhere(rows, key, id)
  {
    if |rows| > 0 {
      DeleteWhereIdempotent(rows[1..], key, id);
    }
  }
}
