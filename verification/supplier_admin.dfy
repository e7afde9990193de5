/** The supplier-management screen (admin/manage_suppliers.py): adding a
    supplier after checking that name and email are not blank, listing with
    a fallback for a missing phone, and deleting. */
module SupplierAdmin {
  import opened Common
  import opened Text
  import opened Schema

  /** The three text boxes of the form; an empty box yields empty text. */
  datatype SupplierForm = SupplierForm(name: string, email: string, phone: string)

  datatype AddOutcome = MissingFields | Inserted | InsertFailed

  /** The add button. A name or email that strips to nothing is refused with
      a warning; otherwise the row is inserted exactly as typed, under the id
      `freshId` the database issues, unless the database rejects it
      (`dbFails`), which is reported as an error and writes nothing. */
  function AddSupplier(suppliers: seq<Supplier>, form: SupplierForm, freshId: nat, dbFails: bool)
    : (r: (AddOutcome, seq<Supplier>))
    ensures r.0 == MissingFields <==> IsBlank(form.name) || IsBlank(form.email)
    ensures r.0 == Inserted <==> !IsBlank(form.name) && !IsBlank(form.email) && !dbFails
    ensures r.0 == Inserted ==> r.1 == suppliers + [Supplier(freshId, form.name, form.email, Some(form.phone))]
    ensures r.0 != Inserted ==> r.1 == suppliers
  {
    StripEmptyIffBlank(form.name);
    StripEmptyIffBlank(form.email);
    if Strip(form.name) == "" || Strip(form.email) == "" then (MissingFields, suppliers)
    else if dbFails then (InsertFailed, suppliers)
    else (Inserted, suppliers + [Supplier(freshId, form.name, form.email, Some(form.phone))])
  }

  /** The phone box is optional: whatever it holds, the outcome is the same. */
  lemma PhoneNeverChecked(suppliers: seq<Supplier>, form: SupplierForm, phone: string, freshId: nat, dbFails: bool)
    ensures AddSupplier(suppliers, form.(phone := phone), freshId, dbFails).0
            == AddSupplier(suppliers, form, freshId, dbFails).0
  {
  }

  /** Name and email are stored with their surrounding blanks, not stripped. */
  lemma StoredAsTyped(suppliers: seq<Supplier>, form: SupplierForm, freshId: nat)
    requires !IsBlank(form.name) && !IsBlank(form.email)
    ensures var r := AddSupplier(suppliers, form, freshId, false).1;
      |r| == |suppliers| + 1 && r[|suppliers|].name == form.name && r[|suppliers|].email == form.email
  {
  }

  /** The phone as the list shows it: "N/A" for a missing or empty phone. */
  function PhoneDisplay(phone: Option<string>): (r: string)
    ensures phone.None? || phone.value == "" ==> r == "N/A"
    ensures phone.Some? && phone.value != "" ==> r == phone.value
  {
    if phone.None? || phone.value == "" then "N/A" else phone.value
  }

  /** A supplier created without a phone (as the product screen creates
      them) is listed with "N/A". */
  lemma BlankPhoneShowsNA(freshId: nat, name: string, email: string)
    ensures PhoneDisplay(AddSupplier([], SupplierForm(name, email, ""), freshId, false).1[0].phone) == "N/A"
    requires !IsBlank(name) && !IsBlank(email)
  {
  }

  /** The delete button of a supplier row, as the screen should behave: the
      delete commits before the page reruns, so it removes that supplier
      only, unless the database rejects the statement (`dbFails`, as when
      products still refer to the supplier), which rolls the transaction
      back. The rest of the model uses this definition. */
  function DeleteSupplier(suppliers: seq<Supplier>, supplierId: nat, dbFails: bool): (r: seq<Supplier>)
    ensures dbFails ==> r == suppliers
    ensures !dbFails ==> forall s :: s in r <==> s in suppliers && s.supplierId != supplierId
  {
    if dbFails then suppliers
    else DeleteWhere(suppliers, (s: Supplier) => s.supplierId, supplierId)
  }

  /** The delete button as written: the DELETE and then `st.rerun()` both run
      inside the screen's `engine.begin()` block. Whichever of the two
      raises, the block ends with an exception and rolls the transaction
      back, the delete included, so the supplier table is what it was. */
  function DeleteSupplierAsWritten(suppliers: seq<Supplier>, supplierId: nat, dbFails: bool): (r: seq<Supplier>)
    ensures r == suppliers
  {
    var deleted := DeleteSupplier(suppliers, supplierId, dbFails);
    var raised := dbFails || RerunRaises;
    if raised then suppliers else deleted
  }

  /** A click on the delete button of a listed supplier leaves it listed as
      written, while the corrected delete removes it. */
  lemma DeleteSupplierAsWrittenKeepsRow(suppliers: seq<Supplier>, i: nat)
    requires i < |suppliers|
    ensures suppliers[i] in DeleteSupplierAsWritten(suppliers, suppliers[i].supplierId, false)
    ensures suppliers[i] !in DeleteSupplier(suppliers, suppliers[i].supplierId, false)
  {
  }
}
