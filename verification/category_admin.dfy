/** The category-management screen (admin/manage_categories.py): adding a
    category after checking that its name is not blank, and deleting one. */
module CategoryAdmin {
  import opened Text
  import opened Schema
  import opened Common

  datatype AddOutcome = BlankName | Inserted | InsertFailed

  /** The add button. A name that strips to nothing is refused with a
      warning; otherwise the name is inserted exactly as typed, under the id
      `freshId` the database issues, unless the database rejects it
      (`dbFails`), which is reported as an error rather than a success. */
  function AddCategory(categories: seq<Category>, name: string, freshId: nat, dbFails: bool)
    : (r: (AddOutcome, seq<Category>))
    ensures r.0 == BlankName <==> IsBlank(name)
    ensures r.0 == Inserted <==> !IsBlank(name) && !dbFails
    ensures r.0 == Inserted ==> r.1 == categories + [Category(freshId, name)]
    ensures r.0 != Inserted ==> r.1 == categories
  {
    StripEmptyIffBlank(name);
    if Strip(name) == "" then (BlankName, categories)
    else if dbFails then (InsertFailed, categories)
    else (Inserted, categories + [Category(freshId, name)])
  }

  /** The delete button of a category row, as the screen should behave: the
      delete commits before the page reruns, so it removes that category
      only, unless the database rejects the statement (`dbFails`, as when
      products still refer to the category), which rolls the transaction
      back. The rest of the model uses this definition. */
  function DeleteCategory(categories: seq<Category>, categoryId: nat, dbFails: bool): (r: seq<Category>)
    ensures dbFails ==> r == categories
    ensures !dbFails ==> forall c :: c in r <==> c in categories && c.categoryId != categoryId
  {
    if dbFails then categories
    else DeleteWhere(categories, (c: Category) => c.categoryId, categoryId)
  }

  /** The delete button as written: the DELETE and then `st.rerun()` both run
      inside the screen's `engine.begin()` block. Whichever of the two
      raises, the block ends with an exception and rolls the transaction
      back, the delete included, so the category table is what it was. */
  function DeleteCategoryAsWritten(categories: seq<Category>, categoryId: nat, dbFails: bool): (r: seq<Category>)
    ensures r == categories
  {
    var deleted := DeleteCategory(categories, categoryId, dbFails);
    var raised := dbFails || RerunRaises;
    if raised then categories else deleted
  }

  /** A click on the delete button of a listed category leaves it listed as
      written, while the corrected delete removes it. */
  lemma DeleteCategoryAsWrittenKeepsRow(categories: seq<Category>, i: nat)
    requires i < |categories|
    ensures categories[i] in DeleteCategoryAsWritten(categories, categories[i].categoryId, false)
    ensures categories[i] !in DeleteCategory(categories, categories[i].categoryId, false)
  {
  }

  /** Deleting a category twice removes nothing more the second time, whether
      or not either attempt fails. */
  lemma DeleteCategoryIdempotent(categories: seq<Category>, categoryId: nat, first: bool, second: bool)
    ensures DeleteCategory(DeleteCategory(categories, categoryId, first), categoryId, second)
            == DeleteCategory(categories, categoryId, first && second)
  {
    DeleteWhereIdempotent(categories, (c: Category) => c.categoryId, categoryId);
  }
}
