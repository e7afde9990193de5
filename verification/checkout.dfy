/** The customer's "Place Order" screen (customer/dashboard.py): the product
    catalogue keyed by the decimal text of each product id, a cart that
    merges quantities per product, the cart total, and placing the order as
    one transaction that is either committed (and the cart emptied) or
    rolled back (and the cart kept). */
module Checkout {
  import opened Common
  import opened Text
  import opened Schema
  import opened OrderListing

  // ---------------------------------------------------------------- catalogue

  /** What the catalogue shows for a product: its name and unit price. */
  datatype Offer = Offer(name: string, price: nat)

  /** The screen reads at most this many products. */
  const CatalogLimit: nat := 100

  /** The product rows the screen reads; without an ORDER BY the database
      may return any 100, and the model takes the first 100 in table order. */
  function CatalogRows(products: seq<Product>): (r: seq<Product>)
    ensures |r| <= CatalogLimit
    ensures |products| <= CatalogLimit ==> r == products
    ensures r <= products
  {
    if |products| <= CatalogLimit then products else products[..CatalogLimit]
  }

  /** The catalogue entry a product row contributes: the product id written
      in decimal, with the product's name and price. */
  function CatalogPairs(rows: seq<Product>): (r: seq<(string, Offer)>)
    ensures |r| == |rows|
    ensures forall i :: 0 <= i < |rows| ==> r[i] == (Decimal(rows[i].productId), Offer(rows[i].name, rows[i].price))
  {
    seq(|rows|, i requires 0 <= i < |rows| => (Decimal(rows[i].productId), Offer(rows[i].name, rows[i].price)))
  }

  /** The catalogue dictionary built from the rows read; a later row with the
      same key replaces an earlier one. */
  function Catalog(rows: seq<Product>): (r: map<string, Offer>)
    ensures forall k :: k in r <==> exists i :: 0 <= i < |rows| && Decimal(rows[i].productId) == k
  {
    var pairs := CatalogPairs(rows);
    assert forall i :: 0 <= i < |rows| ==> pairs[i].0 == Decimal(rows[i].productId);
    DictOf(pairs)
  }

  /** Each catalogue entry describes the last row read with that id. */
  lemma CatalogLaterWins(rows: seq<Product>, i: nat)
    requires i < |rows|
    requires forall j :: i < j < |rows| ==> rows[j].productId != rows[i].productId
    ensures Decimal(rows[i].productId) in Catalog(rows)
    ensures Catalog(rows)[Decimal(rows[i].productId)] == Offer(rows[i].name, rows[i].price)
  {
    var pairs := CatalogPairs(rows);
    forall j | i < j < |pairs| ensures pairs[j].0 != pairs[i].0 {
      DecimalInjective(rows[j].productId, rows[i].productId);
    }
    DictOfLaterWins(pairs, i);
  }

  // --------------------------------------------------------------------- cart

  /** One cart entry: the catalogue key of a product and how many of it. */
  datatype CartLine = CartLine(productKey: string, quantity: nat)

  /** The cart dictionary, in insertion order. */
  type Cart = seq<CartLine>

  function Keys(cart: Cart): (r: seq<string>)
    ensures |r| == |cart|
    ensures forall i :: 0 <= i < |cart| ==> r[i] == cart[i].productKey
  {
    if |cart| == 0 then [] else [cart[0].productKey] + Keys(cart[1..])
  }

  /** A dictionary holds each key once. */
  predicate DistinctKeys(cart: Cart)
  {
    forall i, j :: 0 <= i < j < |cart| ==> cart[i].productKey != cart[j].productKey
  }

  /** Every entry holds at least one unit. */
  predicate PositiveQuantities(cart: Cart)
  {
    forall i :: 0 <= i < |cart| ==> cart[i].quantity >= 1
  }

  /** How many units of `key` the cart holds; zero when it has no entry. */
  function QuantityOf(cart: Cart, key: string): nat
  {
    if |cart| == 0 then 0
    else if cart[0].productKey == key then cart[0].quantity
    else QuantityOf(cart[1..], key)
  }

  /** The quantity widget admits 1 to 100 units per click. */
  predicate ValidQuantity(quantity: nat)
  {
    1 <= quantity <= 100
  }

  /** Adds `quantity` units of `key`: an existing entry grows in place, a new
      key is appended at the end. */
  function Merge(cart: Cart, key: string, quantity: nat): (r: Cart)
    ensures |cart| <= |r| <= |cart| + 1
  {
    if |cart| == 0 then [CartLine(key, quantity)]
    else if cart[0].productKey == key then [CartLine(key, cart[0].quantity + quantity)] + cart[1..]
    else [cart[0]] + Merge(cart[1..], key, quantity)
  }

  /** A key already in the cart keeps the keys as they are; a new key is
      appended as a new entry after all the others. */
  lemma {:induction false} MergeKeys(cart: Cart, key: string, quantity: nat)
    ensures |Merge(cart, key, quantity)| == |cart| + (if key in Keys(cart) then 0 else 1)
    ensures key !in Keys(cart) ==> Merge(cart, key, quantity) == cart + [CartLine(key, quantity)]
    ensures Keys(Merge(cart, key, quantity)) == (if key in Keys(cart) then Keys(cart) else Keys(cart) + [key])
  {
    if |cart| > 0 && cart[0].productKey != key {
      var rest := Merge(cart[1..], key, quantity);
      MergeKeys(cart[1..], key, quantity);
      assert Keys(cart) == [cart[0].productKey] + Keys(cart[1..]);
      assert Keys([cart[0]] + rest) == [cart[0].productKey] + Keys(rest);
      assert cart == [cart[0]] + cart[1..];
    }
  }

  /** "Add to Cart": a session without a cart first gets an empty one, then
      the units are merged in. */
  function AddToCart(session: Option<Cart>, key: string, quantity: nat): (r: Cart)
    requires ValidQuantity(quantity)
    ensures session.None? ==> r == [CartLine(key, quantity)]
    ensures session.Some? ==>
      Keys(r) == (if key in Keys(session.value) then Keys(session.value) else Keys(session.value) + [key])
    ensures session.Some? ==> forall other ::
      QuantityOf(r, other) == QuantityOf(session.value, other) + (if other == key then quantity else 0)
    ensures session.Some? && DistinctKeys(session.value) && PositiveQuantities(session.value) ==>
      DistinctKeys(r) && PositiveQuantities(r)
  {
    var cart := if session.None? then [] else session.value;
    MergeKeys(cart, key, quantity);
    MergeQuantitiesEverywhere(cart, key, quantity);
    if DistinctKeys(cart) && PositiveQuantities(cart) then
      MergeKeepsCartWellFormed(cart, key, quantity);
      Merge(cart, key, quantity)
    else
      Merge(cart, key, quantity)
  }

  /** `MergeQuantities` for every key at once. */
  lemma MergeQuantitiesEverywhere(cart: Cart, key: string, quantity: nat)
    ensures forall other :: QuantityOf(Merge(cart, key, quantity), other)
                            == QuantityOf(cart, other) + (if other == key then quantity else 0)
  {
    forall other
      ensures QuantityOf(Merge(cart, key, quantity), other) == QuantityOf(cart, other) + (if other == key then quantity else 0)
    {
      MergeQuantities(cart, key, quantity, other);
    }
  }

  /** Adding changes the quantity of the added key by exactly the amount
      added and leaves every other key's quantity as it was. */
  lemma {:induction false} MergeQuantities(cart: Cart, key: string, quantity: nat, other: string)
    ensures QuantityOf(Merge(cart, key, quantity), other)
            == QuantityOf(cart, other) + (if other == key then quantity else 0)
  {
    if |cart| > 0 && cart[0].productKey != key {
      MergeQuantities(cart[1..], key, quantity, other);
    }
  }

  /** A cart whose head key is not among the rest, and whose rest holds
      each key once, holds each key once. */
  lemma ConsDistinct(h: CartLine, t: Cart)
    requires h.productKey !in Keys(t) && DistinctKeys(t)
    ensures DistinctKeys([h] + t)
  {
    var c := [h] + t;
    forall i, j | 0 <= i < j < |c| ensures c[i].productKey != c[j].productKey {
      assert c[j] == t[j - 1];
      if i > 0 {
        assert c[i] == t[i - 1];
      } else {
        assert Keys(t)[j - 1] == t[j - 1].productKey;
      }
    }
  }

  /** The converse of `ConsDistinct`. */
  lemma UnconsDistinct(h: CartLine, t: Cart)
    requires DistinctKeys([h] + t)
    ensures h.productKey !in Keys(t) && DistinctKeys(t)
  {
    var c := [h] + t;
    forall j | 0 <= j < |t| ensures Keys(t)[j] != h.productKey {
      assert c[0] == h && c[j + 1] == t[j];
    }
    forall i, j | 0 <= i < j < |t| ensures t[i].productKey != t[j].productKey {
      assert c[i + 1] == t[i] && c[j + 1] == t[j];
    }
  }

  /** Adding never creates a second entry for a key and never empties one. */
  lemma {:induction false} MergeKeepsCartWellFormed(cart: Cart, key: string, quantity: nat)
    requires DistinctKeys(cart) && PositiveQuantities(cart) && ValidQuantity(quantity)
    ensures DistinctKeys(Merge(cart, key, quantity))
    ensures PositiveQuantities(Merge(cart, key, quantity))
  {
    if |cart| == 0 {
    } else {
      var h := cart[0];
      var t := cart[1..];
      assert cart == [h] + t;
      UnconsDistinct(h, t);
      if h.productKey == key {
        var h' := CartLine(key, h.quantity + quantity);
        assert Merge(cart, key, quantity) == [h'] + t;
        ConsDistinct(h', t);
      } else {
        MergeKeepsCartWellFormed(t, key, quantity);
        var rest := Merge(t, key, quantity);
        assert Merge(cart, key, quantity) == [h] + rest;
        MergeKeys(t, key, quantity);
        assert h.productKey !in Keys(rest);
        ConsDistinct(h, rest);
      }
    }
  }

  /** Merging into a present entry keeps every other entry where it was. */
  lemma {:induction false} MergeKeepsOtherLines(cart: Cart, key: string, quantity: nat, i: nat)
    requires i < |cart| && cart[i].productKey != key
    ensures i < |Merge(cart, key, quantity)|
    ensures Merge(cart, key, quantity)[i] == cart[i]
  {
    if i > 0 && cart[0].productKey != key {
      MergeKeepsOtherLines(cart[1..], key, quantity, i - 1);
    }
  }

  // -------------------------------------------------------------------- total

  /** The running total over the cart, unit price times quantity per entry;
      `None` when an entry's key is missing from the catalogue (the lookup
      raises and the screen reports an error). */
  function CartTotal(cart: Cart, catalog: map<string, Offer>): (r: Option<int>)
    ensures r.Some? <==> forall i :: 0 <= i < |cart| ==> cart[i].productKey in catalog
    ensures r.Some? ==> r.value >= 0
  {
    if |cart| == 0 then Some(0)
    else if cart[0].productKey !in catalog then None
    else
      var rest := CartTotal(cart[1..], catalog);
      if rest.None? then None
      else Some(cart[0].quantity * catalog[cart[0].productKey].price + rest.value)
  }

  /** Adding `quantity` units of a catalogued product raises the total by
      exactly `quantity` times its unit price. */
  lemma {:induction false} TotalAfterMerge(cart: Cart, catalog: map<string, Offer>, key: string, quantity: nat)
    requires key in catalog && CartTotal(cart, catalog).Some?
    ensures CartTotal(Merge(cart, key, quantity), catalog)
            == Some(CartTotal(cart, catalog).value + quantity * catalog[key].price)
  {
    if |cart| == 0 {
      TotalOfCons(CartLine(key, quantity), [], catalog);
      assert Merge(cart, key, quantity) == [CartLine(key, quantity)] + [];
    } else {
      var t := cart[1..];
      TotalOfTail(cart, catalog);
      assert cart == [cart[0]] + t;
      if cart[0].productKey == key {
        assert Merge(cart, key, quantity) == [CartLine(key, cart[0].quantity + quantity)] + t;
        TotalOfGrownHead(cart[0], t, catalog, quantity);
      } else {
        TotalAfterMerge(t, catalog, key, quantity);
        assert Merge(cart, key, quantity) == [cart[0]] + Merge(t, key, quantity);
        TotalOfSameHead(cart[0], t, Merge(t, key, quantity), catalog, quantity * catalog[key].price);
      }
    }
  }

  /** Growing the first entry by `quantity` units adds their cost. */
  lemma {:induction false} TotalOfGrownHead(line: CartLine, rest: Cart, catalog: map<string, Offer>, quantity: nat)
    requires line.productKey in catalog && CartTotal(rest, catalog).Some?
    ensures CartTotal([CartLine(line.productKey, line.quantity + quantity)] + rest, catalog)
            == Some(CartTotal([line] + rest, catalog).value + quantity * catalog[line.productKey].price)
  {
    var p := catalog[line.productKey].price;
    TotalOfCons(line, rest, catalog);
    TotalOfCons(CartLine(line.productKey, line.quantity + quantity), rest, catalog);
    assert (line.quantity + quantity) * p == line.quantity * p + quantity * p;
  }

  /** Changing the entries behind the first by `delta` changes the total by
      `delta`. */
  lemma {:induction false} TotalOfSameHead(line: CartLine, rest: Cart, rest': Cart, catalog: map<string, Offer>,
                                           delta: int)
    requires line.productKey in catalog && CartTotal(rest, catalog).Some?
    requires CartTotal(rest', catalog) == Some(CartTotal(rest, catalog).value + delta)
    ensures CartTotal([line] + rest', catalog) == Some(CartTotal([line] + rest, catalog).value + delta)
  {
    TotalOfCons(line, rest, catalog);
    TotalOfCons(line, rest', catalog);
  }

  /** A cart with a total has a total without its first entry. */
  lemma {:induction false} TotalOfTail(cart: Cart, catalog: map<string, Offer>)
    requires |cart| > 0 && CartTotal(cart, catalog).Some?
    ensures cart[0].productKey in catalog && CartTotal(cart[1..], catalog).Some?
  {
  }

  /** The total of a cart is its first entry's cost plus the total of the
      rest. */
  lemma {:induction false} TotalOfCons(line: CartLine, rest: Cart, catalog: map<string, Offer>)
    requires line.productKey in catalog && CartTotal(rest, catalog).Some?
    ensures CartTotal([line] + rest, catalog)
            == Some(line.quantity * catalog[line.productKey].price + CartTotal(rest, catalog).value)
  {
    assert ([line] + rest)[1..] == rest;
  }

  /** A cart of one entry costs its quantity times the unit price. */
  lemma {:induction false} TotalOfSingleton(key: string, quantity: nat, catalog: map<string, Offer>)
    requires key in catalog
    ensures CartTotal([CartLine(key, quantity)], catalog) == Some(quantity * catalog[key].price)
  {
    assert [CartLine(key, quantity)][1..] == [];
  }

  // -------------------------------------------------------------- place order

  /** The text-to-integer conversion applied to a cart key when the item row
      is written; it fails on text that is not a decimal numeral. */
  function KeyToId(key: string): (r: Option<nat>)
    ensures r.Some? <==> |key| > 0 && AllDigits(key)
  {
    if |key| > 0 && AllDigits(key) then Some(ParseDecimal(key)) else None
  }

  /** Keys built from product ids convert back to the same ids. */
  lemma KeyToIdOfDecimal(id: nat)
    ensures KeyToId(Decimal(id)) == Some(id)
  {
    ParseDecimalOfDecimal(id);
  }

  /** What a "Place Order" click leads to. */
  datatype PlaceOutcome =
    | NothingToPlace        // the cart is empty; the button is not offered
    | LookupFailed          // a cart key is missing from the catalogue
    | Placed(orderId: nat)  // both inserts committed
    | RolledBack            // an insert failed; the transaction was undone

  datatype PlaceResult = PlaceResult(store: OrderStore, cart: Cart, outcome: PlaceOutcome)

  /** The item rows for a cart: one per entry, in cart order, carrying the
      converted product id, the quantity, and in the price column the whole
      order's total rather than the product's unit price. `None` when a key
      does not convert. */
  function ItemRows(orderId: nat, cart: Cart, total: int): (r: Option<seq<OrderItem>>)
    ensures r.Some? <==> forall i :: 0 <= i < |cart| ==> KeyToId(cart[i].productKey).Some?
    ensures r.Some? ==> |r.value| == |cart|
    ensures r.Some? ==> forall i :: 0 <= i < |cart| ==>
      r.value[i] == OrderItem(orderId, KeyToId(cart[i].productKey).value, cart[i].quantity, total)
  {
    if |cart| == 0 then Some([])
    else
      var id := KeyToId(cart[0].productKey);
      var rest := ItemRows(orderId, cart[1..], total);
      if id.None? || rest.None? then None
      else Some([OrderItem(orderId, id.value, cart[0].quantity, total)] + rest.value)
  }

  /** The order row written at checkout. */
  function PendingOrder(orderId: nat, customerId: nat, now: int, total: int): Order
  {
    Order(orderId, customerId, now, total, "Pending", None, None, None)
  }

  /** A "Place Order" click. `newOrderId` is the id the database issues,
      `now` its clock, and `dbFails` whether the database rejects one of the
      inserts (a missing product, a lost connection). */
  function PlaceOrder(store: OrderStore, customerId: nat, cart: Cart, catalog: map<string, Offer>,
                      now: int, newOrderId: nat, dbFails: bool): (r: PlaceResult)
    ensures r.outcome.NothingToPlace? <==> |cart| == 0
    ensures r.outcome.LookupFailed? <==> |cart| > 0 && CartTotal(cart, catalog).None?
    ensures !r.outcome.Placed? ==> r.store == store && r.cart == cart
    ensures r.outcome.Placed? ==>
      && r.outcome.orderId == newOrderId
      && CartTotal(cart, catalog).Some?
      && r.store.orders == store.orders + [PendingOrder(newOrderId, customerId, now, CartTotal(cart, catalog).value)]
      && ItemRows(newOrderId, cart, CartTotal(cart, catalog).value).Some?
      && r.store.items == store.items + ItemRows(newOrderId, cart, CartTotal(cart, catalog).value).value
      && r.store.history == store.history
      && r.cart == []
    ensures r.outcome.Placed? <==>
      |cart| > 0 && CartTotal(cart, catalog).Some? && !dbFails
      && ItemRows(newOrderId, cart, CartTotal(cart, catalog).value).Some?
  {
    if |cart| == 0 then PlaceResult(store, cart, NothingToPlace)
    else
      var total := CartTotal(cart, catalog);
      if total.None? then PlaceResult(store, cart, LookupFailed)
      else
        var items := ItemRows(newOrderId, cart, total.value);
        if dbFails || items.None? then PlaceResult(store, cart, RolledBack)
        else
          var order := PendingOrder(newOrderId, customerId, now, total.value);
          PlaceResult(OrderStore(store.orders + [order], store.items + items.value, store.history),
                      [], Placed(newOrderId))
  }

  /** Sum of quantity times the stored price over item rows. */
  function ItemsValue(items: seq<OrderItem>): int
  {
    if |items| == 0 then 0 else items[0].quantity * items[0].price + ItemsValue(items[1..])
  }

  function TotalQuantity(cart: Cart): nat
  {
    if |cart| == 0 then 0 else cart[0].quantity + TotalQuantity(cart[1..])
  }

  /** Because every item row stores the order total as its price, pricing the
      items back out gives the total times the number of units, not the
      total: the two agree only for a single unit. */
  lemma {:induction false} ItemsValueIsTotalTimesUnits(orderId: nat, cart: Cart, total: int)
    requires ItemRows(orderId, cart, total).Some?
    ensures ItemsValue(ItemRows(orderId, cart, total).value) == total * TotalQuantity(cart)
  {
    if |cart| > 0 {
      ItemsValueIsTotalTimesUnits(orderId, cart[1..], total);
      var rows := ItemRows(orderId, cart, total).value;
      assert rows[1..] == ItemRows(orderId, cart[1..], total).value;
      assert total * TotalQuantity(cart) == cart[0].quantity * total + total * TotalQuantity(cart[1..]);
    }
  }

  /** A placed order shows up on its customer's "My Orders" list. */
  lemma PlacedOrderIsListed(store: OrderStore, customerId: nat, cart: Cart, catalog: map<string, Offer>,
                            now: int, newOrderId: nat)
    requires PlaceOrder(store, customerId, cart, catalog, now, newOrderId, false).outcome.Placed?
    ensures PendingOrder(newOrderId, customerId, now, CartTotal(cart, catalog).value)
            in MyOrders(PlaceOrder(store, customerId, cart, catalog, now, newOrderId, false).store.orders, customerId)
  {
  }
}
