/** How insert_data.py loads dummy rows: `execute_batch_insert` slices the
    rows into batches and commits each before the next, swallowing the first
    error after rolling back the batch it hit; each `insert_*` function
    gives up without a connection; products are only generated when there
    are categories and suppliers to point at; and the per-row rules for
    discounts, deliveries and item quantities. */
module BatchInsert {
  import opened Common
  import opened Schema

  /** The default `batch_size` of `execute_batch_insert`. */
  const DefaultBatchSize: nat := 100

  // -------------------------------------------------------- batch insertion

  /** `execute_batch_insert`: from index 0 in steps of `batchSize`, insert
      the next `batchSize` rows (fewer at the end) and commit. Batch `failAt` (counting
      from 0), if any, raises: its rows are rolled back, the error is
      caught and no later batch is attempted. A batch size of zero makes
      `range` itself raise inside the same `try`, so nothing is inserted.
      Returns the committed batches. */
  method ExecuteBatchInsert<R>(data: seq<R>, batchSize: nat, failAt: Option<nat>) returns (committed: seq<seq<R>>)
    ensures batchSize == 0 ==> committed == []
    ensures batchSize >= 1 ==> committed == BeforeFailure(SliceChunks(data, batchSize), failAt)
    ensures Flatten(committed) <= data
    ensures batchSize >= 1 && failAt.None? ==> Flatten(committed) == data
  {
    committed := [];
    if batchSize == 0 {
      return;
    }
    ghost var batches := SliceChunks(data, batchSize);
    var i := 0;
    while i < |data|
      invariant i <= |data|
      invariant batches == committed + SliceChunks(data[i..], batchSize)
      invariant failAt.None? || failAt.value >= |committed|
      decreases |data| - i
    {
      var stop := if i + batchSize < |data| then i + batchSize else |data|;
      var batch := data[i..stop];
      if failAt == Some(|committed|) {
        StopsAtFailedBatch(data, batchSize, committed, i);
        return;
      }
      NextBatch(data, batchSize, committed, i, stop);
      committed := committed + [batch];
      i := stop;
    }
    AllBatchesCommitted(data, batchSize, committed, failAt);
  }

  /** The failing batch ends the loop with the earlier batches committed. */
  lemma StopsAtFailedBatch<R>(data: seq<R>, batchSize: nat, committed: seq<seq<R>>, i: nat)
    requires batchSize >= 1 && i < |data|
    requires SliceChunks(data, batchSize) == committed + SliceChunks(data[i..], batchSize)
    ensures committed == BeforeFailure(SliceChunks(data, batchSize), Some(|committed|))
    ensures Flatten(committed) <= data
  {
    var batches := SliceChunks(data, batchSize);
    assert |SliceChunks(data[i..], batchSize)| > 0;
    assert batches[..|committed|] == committed;
    FlattenPrefix(batches, |committed|);
  }

  /** The slice `data[i..stop]` is the next batch. */
  lemma NextBatch<R>(data: seq<R>, batchSize: nat, committed: seq<seq<R>>, i: nat, stop: nat)
    requires batchSize >= 1 && i < |data|
    requires stop == if i + batchSize < |data| then i + batchSize else |data|
    requires SliceChunks(data, batchSize) == committed + SliceChunks(data[i..], batchSize)
    ensures SliceChunks(data, batchSize) == (committed + [data[i..stop]]) + SliceChunks(data[stop..], batchSize)
  {
    SliceChunksStep(data, batchSize, i, stop);
  }

  /** Reaching the end of the data means every batch was committed. */
  lemma AllBatchesCommitted<R>(data: seq<R>, batchSize: nat, committed: seq<seq<R>>, failAt: Option<nat>)
    requires batchSize >= 1
    requires SliceChunks(data, batchSize) == committed + SliceChunks(data[|data|..], batchSize)
    requires failAt.None? || failAt.value >= |committed|
    ensures committed == BeforeFailure(SliceChunks(data, batchSize), failAt)
    ensures Flatten(committed) == data
  {
    assert SliceChunks(data[|data|..], batchSize) == [];
    assert committed + [] == committed;
  }

  /** An `insert_*` function on generated rows: without a connection it
      returns before inserting anything; otherwise the rows go through
      `execute_batch_insert` with the default batch size. */
  method InsertTable<R>(connected: bool, rows: seq<R>, failAt: Option<nat>) returns (committed: seq<seq<R>>)
    ensures !connected ==> committed == []
    ensures connected ==> committed == BeforeFailure(SliceChunks(rows, DefaultBatchSize), failAt)
    ensures Flatten(committed) <= rows
  {
    if !connected {
      return [];
    }
    committed := ExecuteBatchInsert(rows, DefaultBatchSize, failAt);
  }

  // ---------------------------------------------------------------- products

  /** The draws behind one generated product: its id and texts, price (in
      cents) and stock draws, and which category and supplier id. */
  datatype ProductDraws = ProductDraws(
    productId: nat,
    name: string,
    description: string,
    price: nat,
    stock: nat,
    category: nat,
    supplier: nat)

  /** One product row: stock between 0 and 1000, category and supplier
      drawn from the ids read from the database. */
  function ProductRow(d: ProductDraws, categoryIds: seq<nat>, supplierIds: seq<nat>): (r: Product)
    requires |categoryIds| > 0 && |supplierIds| > 0
    ensures r.productId == d.productId
    ensures r.categoryId in categoryIds && r.supplierId in supplierIds
    ensures r.stockQuantity <= 1000
  {
    Product(d.productId, d.name, d.description, d.price, PickInRange(0, 1000, d.stock) as nat,
            Choose(categoryIds, d.category), Choose(supplierIds, d.supplier))
  }

  /** `insert_products`: nothing without a connection, and nothing (the
      function returns early) when there is no category or no supplier;
      otherwise one row per draw, in order, batch-inserted. */
  method InsertProducts(connected: bool, categoryIds: seq<nat>, supplierIds: seq<nat>,
                        draws: seq<ProductDraws>, failAt: Option<nat>) returns (committed: seq<seq<Product>>)
    ensures !connected || |categoryIds| == 0 || |supplierIds| == 0 ==> committed == []
    ensures forall p :: p in Flatten(committed) ==> p.categoryId in categoryIds && p.supplierId in supplierIds
    ensures |Flatten(committed)| <= |draws|
    ensures forall k :: 0 <= k < |Flatten(committed)| ==>
      |categoryIds| > 0 && |supplierIds| > 0 && Flatten(committed)[k] == ProductRow(draws[k], categoryIds, supplierIds)
    ensures connected && |categoryIds| > 0 && |supplierIds| > 0 && failAt.None? ==> |Flatten(committed)| == |draws|
  {
    if !connected || |categoryIds| == 0 || |supplierIds| == 0 {
      return [];
    }
    var rows := seq(|draws|, k requires 0 <= k < |draws| => ProductRow(draws[k], categoryIds, supplierIds));
    committed := ExecuteBatchInsert(rows, DefaultBatchSize, failAt);
    PrefixMembers(Flatten(committed), rows);
  }

  // ------------------------------------------------------------- other rows

  /** The statuses `insert_deliveries` draws from. */
  const DeliveryStatuses: seq<string> := ["pending", "shipped", "in_transit", "delivered", "failed"]

  /** One generated delivery: the status is drawn first and a date is drawn
      only for "delivered" and "in_transit"; the order id is drawn from the
      ids read from the database, which raises when there are none. */
  function DeliveryRow(deliveryId: nat, orderIds: seq<nat>, statusPick: nat, date: int, orderPick: nat)
    : (r: Option<Delivery>)
    ensures r.None? <==> |orderIds| == 0
    ensures r.Some? ==> r.value.deliveryId == deliveryId && r.value.orderId in orderIds
    ensures r.Some? ==> r.value.status in DeliveryStatuses
    ensures r.Some? ==> (r.value.deliveryDate.Some? <==> r.value.status in {"delivered", "in_transit"})
  {
    var status := Choose(DeliveryStatuses, statusPick);
    var deliveryDate := if status in {"delivered", "in_transit"} then Some(date) else None;
    if |orderIds| == 0 then None else Some(Delivery(deliveryId, Choose(orderIds, orderPick), status, deliveryDate))
  }

  /** Whatever picks are drawn, a delivery whose status draw is "shipped"
      gets no date, while one drawn "in_transit" gets the drawn date. */
  lemma ShippedDeliveryHasNoDate(deliveryId: nat, orderIds: seq<nat>, statusPick: nat, date: int, orderPick: nat)
    requires |orderIds| > 0
    ensures Choose(DeliveryStatuses, statusPick) == "shipped" ==>
      DeliveryRow(deliveryId, orderIds, statusPick, date, orderPick).value.deliveryDate.None?
    ensures Choose(DeliveryStatuses, statusPick) == "in_transit" ==>
      DeliveryRow(deliveryId, orderIds, statusPick, date, orderPick).value.deliveryDate == Some(date)
  {
  }

  /** One generated discount. `validFrom` is drawn from the past year up to
      `today`; `validTo` from `validFrom` up to a year ahead, so a discount
      never ends before it starts. Faker turns "-1y" and "+1y" into offsets
      of 365.24 days, and adding one to a date keeps only its day part, which
      floors the backward offset to 366 days and the forward one to 365. */
  function DiscountRow(discountId: nat, code: string, today: int, fromPick: nat, toPick: nat): (r: Discount)
    ensures r.discountId == discountId && r.code == code
    ensures today - 366 <= r.validFrom <= today
    ensures r.validFrom <= r.validTo <= today + 365
  {
    var validFrom := today - PickInRange(0, 366, fromPick);
    Discount(discountId, code, validFrom, PickInRange(validFrom, today + 365, toPick))
  }

  /** A row of `cartitem`. */
  datatype CartItem = CartItem(cartItemId: nat, cartId: nat, productId: nat, quantity: nat)

  /** One generated cart item: cart and product drawn from the ids read from
      the database (raising when either list is empty), quantity 1 to 10. */
  function CartItemRow(cartItemId: nat, cartIds: seq<nat>, productIds: seq<nat>,
                       cartPick: nat, productPick: nat, quantityPick: nat): (r: Option<CartItem>)
    ensures r.None? <==> |cartIds| == 0 || |productIds| == 0
    ensures r.Some? ==> r.value.cartId in cartIds && r.value.productId in productIds
    ensures r.Some? ==> 1 <= r.value.quantity <= 10
  {
    if |cartIds| == 0 || |productIds| == 0 then None
    else Some(CartItem(cartItemId, Choose(cartIds, cartPick), Choose(productIds, productPick),
                       PickInRange(1, 10, quantityPick) as nat))
  }

  /** One generated order item: order and product drawn from the ids read
      from the database, quantity 1 to 10, price an independent draw. */
  function OrderItemRow(orderIds: seq<nat>, productIds: seq<nat>, orderPick: nat, productPick: nat,
                        quantityPick: nat, price: int): (r: Option<OrderItem>)
    ensures r.None? <==> |orderIds| == 0 || |productIds| == 0
    ensures r.Some? ==> r.value.orderId in orderIds && r.value.productId in productIds
    ensures r.Some? ==> 1 <= r.value.quantity <= 10 && r.value.price == price
  {
    if |orderIds| == 0 || |productIds| == 0 then None
    else Some(OrderItem(Choose(orderIds, orderPick), Choose(productIds, productPick),
                        PickInRange(1, 10, quantityPick) as nat, price))
  }
}
