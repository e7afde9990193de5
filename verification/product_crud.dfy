/** The product-management screen (admin/product_crud.py): resolving a
    supplier by name (creating it when missing), the category-name
    dictionary, adding a product and deleting one. The screen runs inside
    one transaction, so an error anywhere undoes everything it wrote. */
module ProductCrud {
  import opened Common
  import opened Schema

  // ---------------------------------------------------------------- suppliers

  /** The id of the first supplier named exactly `name`, if any. */
  function FindSupplier(suppliers: seq<Supplier>, name: string): (r: Option<nat>)
    ensures r.None? <==> forall i :: 0 <= i < |suppliers| ==> suppliers[i].name != name
    ensures r.Some? ==> exists i :: 0 <= i < |suppliers| && suppliers[i].name == name
                                  && suppliers[i].supplierId == r.value
                                  && forall j :: 0 <= j < i ==> suppliers[j].name != name
  {
    if |suppliers| == 0 then None
    else if suppliers[0].name == name then Some(suppliers[0].supplierId)
    else
      var r := FindSupplier(suppliers[1..], name);
      if r.Some? then
        var i :| 0 <= i < |suppliers[1..]| && suppliers[1..][i].name == name
                 && suppliers[1..][i].supplierId == r.value
                 && forall j :: 0 <= j < i ==> suppliers[1..][j].name != name;
        assert suppliers[i + 1] == suppliers[1..][i];
        assert forall j :: 1 <= j < i + 1 ==> suppliers[j] == suppliers[1..][j - 1];
        r
      else r
  }

  /** The supplier row created for an unknown name: empty email and phone. */
  function NewSupplier(supplierId: nat, name: string): Supplier
  {
    Supplier(supplierId, name, "", Some(""))
  }

  /** Resolve-or-create: the id of the supplier with that name, inserting one
      (under the id `freshId` the database issues) when none exists. */
  function GetSupplierId(suppliers: seq<Supplier>, name: string, freshId: nat): (r: (nat, seq<Supplier>))
    ensures FindSupplier(suppliers, name).Some? ==>
      r.0 == FindSupplier(suppliers, name).value && r.1 == suppliers
    ensures FindSupplier(suppliers, name).None? ==>
      r.0 == freshId && r.1 == suppliers + [NewSupplier(freshId, name)]
    ensures FindSupplier(r.1, name) == Some(r.0)
  {
    var found := FindSupplier(suppliers, name);
    if found.Some? then (found.value, suppliers)
    else
      var added := suppliers + [NewSupplier(freshId, name)];
      FindAfterAppend(suppliers, NewSupplier(freshId, name), name);
      (freshId, added)
  }

  /** Appending a row leaves the first match unchanged, or makes the new row
      the first match when there was none. */
  lemma {:induction false} FindAfterAppend(suppliers: seq<Supplier>, s: Supplier, name: string)
    ensures FindSupplier(suppliers + [s], name)
            == (if FindSupplier(suppliers, name).Some? then FindSupplier(suppliers, name)
                else if s.name == name then Some(s.supplierId) else None)
  {
    if |suppliers| > 0 {
      assert (suppliers + [s])[1..] == suppliers[1..] + [s];
      FindAfterAppend(suppliers[1..], s, name);
    }
  }

  /** Resolving the same name twice gives the same id, and the second call
      inserts nothing: the table grows by at most one row overall. */
  lemma GetSupplierIdIdempotent(suppliers: seq<Supplier>, name: string, freshId1: nat, freshId2: nat)
    ensures GetSupplierId(GetSupplierId(suppliers, name, freshId1).1, name, freshId2)
            == GetSupplierId(suppliers, name, freshId1)
    ensures |GetSupplierId(suppliers, name, freshId1).1| <= |suppliers| + 1
  {
  }

  // --------------------------------------------------------------- categories

  /** The category rows as name/id pairs, in table order. */
  function CategoryPairs(categories: seq<Category>): (r: seq<(string, nat)>)
    ensures |r| == |categories|
    ensures forall i :: 0 <= i < |categories| ==> r[i] == (categories[i].categoryName, categories[i].categoryId)
  {
    seq(|categories|, i requires 0 <= i < |categories| => (categories[i].categoryName, categories[i].categoryId))
  }

  /** The name-to-id dictionary the category picker offers; a later row with
      the same name replaces an earlier one. */
  function CategoryDict(categories: seq<Category>): (r: map<string, nat>)
    ensures forall n :: n in r <==> exists i :: 0 <= i < |categories| && categories[i].categoryName == n
  {
    var pairs := CategoryPairs(categories);
    assert forall i :: 0 <= i < |categories| ==> pairs[i].0 == categories[i].categoryName;
    DictOf(pairs)
  }

  /** Among rows sharing a name, the dictionary keeps the last one's id. */
  lemma CategoryDictLaterWins(categories: seq<Category>, i: nat)
    requires i < |categories|
    requires forall j :: i < j < |categories| ==> categories[j].categoryName != categories[i].categoryName
    ensures CategoryDict(categories)[categories[i].categoryName] == categories[i].categoryId
  {
    DictOfLaterWins(CategoryPairs(categories), i);
  }

  // ----------------------------------------------------------------- products

  /** The add-product form. Price is in cents; both number widgets have a
      minimum of zero, so neither can be negative. */
  datatype ProductForm = ProductForm(
    name: string,
    description: string,
    price: nat,
    quantity: nat,
    supplierName: string)

  datatype Catalogue = Catalogue(suppliers: seq<Supplier>, categories: seq<Category>, products: seq<Product>)

  datatype AddOutcome = Added(productId: nat) | NoSuchCategory | AddFailed

  /** The add button. `category` is the picker's choice, absent when there
      are no categories; `freshSupplierId` and `freshProductId` are the ids
      the database would issue. Looking up a missing category raises after
      the supplier was resolved, and the transaction undoes that insert too.
      `dbFails` says that one of the statements fails, which likewise undoes
      everything; the model reports that ahead of a missing category. */
  function AddProduct(db: Catalogue, form: ProductForm, category: Option<string>,
                      freshSupplierId: nat, freshProductId: nat, dbFails: bool): (r: (AddOutcome, Catalogue))
    ensures r.0.AddFailed? <==> dbFails
    ensures r.0.NoSuchCategory? <==> !dbFails && (category.None? || category.value !in CategoryDict(db.categories))
    ensures !r.0.Added? ==> r.1 == db
    ensures r.0.Added? ==>
      var (supplierId, suppliers) := GetSupplierId(db.suppliers, form.supplierName, freshSupplierId);
      && r.0.productId == freshProductId
      && r.1.suppliers == suppliers
      && r.1.categories == db.categories
      && r.1.products == db.products + [Product(freshProductId, form.name, form.description, form.price,
                                                form.quantity, CategoryDict(db.categories)[category.value],
                                                supplierId)]
  {
    var (supplierId, suppliers) := GetSupplierId(db.suppliers, form.supplierName, freshSupplierId);
    var dict := CategoryDict(db.categories);
    if dbFails then (AddFailed, db)
    else if category.None? || category.value !in dict then (NoSuchCategory, db)
    else
      var row := Product(freshProductId, form.name, form.description, form.price, form.quantity,
                         dict[category.value], supplierId);
      (Added(freshProductId), Catalogue(suppliers, db.categories, db.products + [row]))
  }

  /** An added product refers to a category that exists and to a supplier
      that carries the name typed in the form. */
  lemma AddedProductReferencesExist(db: Catalogue, form: ProductForm, category: Option<string>,
                                    freshSupplierId: nat, freshProductId: nat, dbFails: bool)
    requires AddProduct(db, form, category, freshSupplierId, freshProductId, dbFails).0.Added?
    ensures var r := AddProduct(db, form, category, freshSupplierId, freshProductId, dbFails).1;
      var p := r.products[|r.products| - 1];
      && (exists i :: 0 <= i < |db.categories| && db.categories[i].categoryId == p.categoryId)
      && (exists i :: 0 <= i < |r.suppliers| && r.suppliers[i].supplierId == p.supplierId
                      && r.suppliers[i].name == form.supplierName)
  {
    var r := AddProduct(db, form, category, freshSupplierId, freshProductId, dbFails).1;
    var pairs := CategoryPairs(db.categories);
    var dict := CategoryDict(db.categories);
    DictValueFromPair(pairs, category.value);
    var (supplierId, suppliers) := GetSupplierId(db.suppliers, form.supplierName, freshSupplierId);
    assert FindSupplier(suppliers, form.supplierName) == Some(supplierId);
  }

  /** The delete button of a product row removes that product only, unless
      the database rejects the statement (`dbFails`), which rolls back the
      screen's transaction. */
  function DeleteProduct(db: Catalogue, productId: nat, dbFails: bool): (r: Catalogue)
    ensures dbFails ==> r == db
    ensures r.suppliers == db.suppliers && r.categories == db.categories
    ensures !dbFails ==> forall p :: p in r.products <==> p in db.products && p.productId != productId
  {
    if dbFails then db
    else db.(products := DeleteWhere(db.products, (p: Product) => p.productId, productId))
  }
}
