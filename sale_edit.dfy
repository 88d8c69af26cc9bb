/**
  A salesperson editing or deleting one of their own sales. Both refuse a sale already
  PAGADO; editing validates the form and reports every missing or malformed field at once.
 */
module SaleEdit {
  import opened Wrappers
  import opened Decimals
  import opened Records

  /** `WHERE v.id = ? AND v.vendedor_id = ?`: the sale, if it exists and belongs to the seller. */
  function OwnSaleIndex(sales: seq<Sale>, id: int, seller: int): (r: Option<nat>)
    ensures r.Some? ==> r.value < |sales| && sales[r.value].id == id && sales[r.value].seller == seller
    ensures r.None? && SaleIdsIncrease(sales) ==> forall k :: 0 <= k < |sales| && sales[k].id == id ==> sales[k].seller != seller
  {
    match SaleIndex(sales, id)
    case None => None
    case Some(k) => if sales[k].seller == seller then Some(k) else None
  }

  // ===========================================================================
  // venta_editar

  /** The posted form; an absent field is the empty text, the account select is None when nothing is chosen. */
  datatype EditForm = EditForm(folio: string, client: string, amount: string, account: Option<int>, note: string)

  datatype EditError = FolioRequired | ClientRequired | AmountRequired | AmountNotNumeric | AccountRequired

  datatype EditOutcome =
    | NotFound                        // 404, the sale is not the seller's
    | RefusedPaid                     // 400 "No se puede editar una venta ya pagada."
    | Invalid(errors: seq<EditError>) // the form is shown again with its errors
    | Updated                         // "Venta actualizada correctamente."

  /** Every check of the form, in the order the messages are listed. */
  function FormErrors(f: EditForm): (r: seq<EditError>)
    ensures r == [] <==> f.folio != [] && f.client != [] && f.amount != [] && ParseFloat(f.amount).Some? && f.account.Some?
    ensures FolioRequired in r <==> f.folio == []
    ensures AmountNotNumeric in r <==> f.amount != [] && ParseFloat(f.amount).None?
  {
    (if f.folio == [] then [FolioRequired] else [])
    + (if f.client == [] then [ClientRequired] else [])
    + (if f.amount == [] then [AmountRequired] else if ParseFloat(f.amount).None? then [AmountNotNumeric] else [])
    + (if f.account.None? then [AccountRequired] else [])
  }

  /** The UPDATE: the form's fields and the change time; id, seller, status and creation time stay. */
  function Edited(s: Sale, f: EditForm, now: int): (r: Sale)
    requires FormErrors(f) == []
    ensures r.id == s.id && r.seller == s.seller && r.status == s.status && r.created == s.created
    ensures r.folio == f.folio && r.client == f.client && r.account == f.account.value && r.note == f.note
    ensures r.amount == DecimalCents(ParseFloat(f.amount).value) && r.lastChange == now
  {
    s.(folio := f.folio, client := f.client, amount := DecimalCents(ParseFloat(f.amount).value),
       account := f.account.value, note := f.note, lastChange := now)
  }

  /** The POST of the edit page: not found, refused because PAGADO, invalid, or updated. */
  function EditSale(sales: seq<Sale>, id: int, seller: int, f: EditForm, now: int): (r: (seq<Sale>, EditOutcome))
    ensures r.1 != Updated ==> r.0 == sales
    ensures r.1 == NotFound <==> OwnSaleIndex(sales, id, seller).None?
    ensures r.1 == RefusedPaid <==> OwnSaleIndex(sales, id, seller).Some? && sales[OwnSaleIndex(sales, id, seller).value].status == SalePaid
    ensures r.1 == Updated <==>
      OwnSaleIndex(sales, id, seller).Some? && sales[OwnSaleIndex(sales, id, seller).value].status != SalePaid && FormErrors(f) == []
    ensures r.1 == Updated ==> var k := OwnSaleIndex(sales, id, seller).value;
      r.0 == sales[k := Edited(sales[k], f, now)]
    ensures r.1.Invalid? ==> r.1.errors == FormErrors(f) && r.1.errors != []
  {
    match OwnSaleIndex(sales, id, seller)
    case None => (sales, NotFound)
    case Some(k) =>
      if sales[k].status == SalePaid then (sales, RefusedPaid)
      else
        var errors := FormErrors(f);
        if errors != [] then (sales, Invalid(errors))
        else (sales[k := Edited(sales[k], f, now)], Updated)
  }

  /** A PAGADO sale is never changed by the edit page, whatever is posted. */
  lemma PaidSaleNeverEdited(sales: seq<Sale>, id: int, seller: int, f: EditForm, now: int)
    requires SaleIdsIncrease(sales)
    ensures forall k :: 0 <= k < |sales| && sales[k].status == SalePaid ==> EditSale(sales, id, seller, f, now).0[k] == sales[k]
  {
    var r := EditSale(sales, id, seller, f, now);
    forall k | 0 <= k < |sales| && sales[k].status == SalePaid
      ensures r.0[k] == sales[k]
    {
      if r.1 == Updated {
        var m := OwnSaleIndex(sales, id, seller).value;
        assert k != m;
      }
    }
  }

  /** Editing keeps ids, statuses and the table's length, so which sales are PAGADO and linked does not change. */
  lemma EditKeepsPaidIffLinked(sales: seq<Sale>, ps: seq<Payment>, id: int, seller: int, f: EditForm, now: int)
    requires PaidIffLinked(sales, ps)
    ensures PaidIffLinked(EditSale(sales, id, seller, f, now).0, ps)
  {
    var r := EditSale(sales, id, seller, f, now);
    assert |r.0| == |sales|;
    assert forall k :: 0 <= k < |sales| ==> r.0[k].id == sales[k].id && r.0[k].status == sales[k].status;
  }

  // ===========================================================================
  // venta_eliminar

  datatype DeleteOutcome = DeleteNotFound | DeleteRefusedPaid | Deleted

  /** `DELETE FROM ventas WHERE id = ? AND vendedor_id = ?`, once the sale is found and not PAGADO. */
  function DeleteSale(sales: seq<Sale>, id: int, seller: int): (r: (seq<Sale>, DeleteOutcome))
    ensures r.1 != Deleted ==> r.0 == sales
    ensures r.1 == DeleteNotFound <==> OwnSaleIndex(sales, id, seller).None?
    ensures r.1 == Deleted <==> OwnSaleIndex(sales, id, seller).Some? && sales[OwnSaleIndex(sales, id, seller).value].status != SalePaid
    ensures r.1 == Deleted ==> var k := OwnSaleIndex(sales, id, seller).value;
      r.0 == sales[..k] + sales[k + 1..]
  {
    match OwnSaleIndex(sales, id, seller)
    case None => (sales, DeleteNotFound)
    case Some(k) =>
      if sales[k].status == SalePaid then (sales, DeleteRefusedPaid)
      else (sales[..k] + sales[k + 1..], Deleted)
  }

  /**
    What the comment beside the DELETE relies on: while every linked sale is PAGADO, a sale
    that may be deleted has no MATCH payment pointing at it, so no link is left dangling.
   */
  lemma DeletedSaleUnlinked(sales: seq<Sale>, ps: seq<Payment>, id: int, seller: int)
    requires PaidIffLinked(sales, ps)
    requires DeleteSale(sales, id, seller).1 == Deleted
    ensures Linkers(ps, id) == {}
  {
    var k := OwnSaleIndex(sales, id, seller).value;
    assert |Linkers(ps, sales[k].id)| == 0;
  }

  /** Deleting keeps PAGADO-iff-linked for the sales that remain. */
  lemma DeleteKeepsPaidIffLinked(sales: seq<Sale>, ps: seq<Payment>, id: int, seller: int)
    requires PaidIffLinked(sales, ps)
    ensures PaidIffLinked(DeleteSale(sales, id, seller).0, ps)
  {
    var r := DeleteSale(sales, id, seller);
    if r.1 == Deleted {
      var k := OwnSaleIndex(sales, id, seller).value;
      forall m | 0 <= m < |r.0|
        ensures |Linkers(ps, r.0[m].id)| == if r.0[m].status == SalePaid then 1 else 0
      {
        if m < k {
          assert r.0[m] == sales[m];
        } else {
          assert r.0[m] == sales[m + 1];
        }
      }
    }
  }

  /** A PAGADO sale is never deleted. */
  lemma PaidSaleNeverDeleted(sales: seq<Sale>, id: int, seller: int, k: nat)
    requires SaleIdsIncrease(sales)
    requires k < |sales| && sales[k].status == SalePaid
    ensures sales[k] in DeleteSale(sales, id, seller).0
  {
    var r := DeleteSale(sales, id, seller);
    if r.1 == Deleted {
      var m := OwnSaleIndex(sales, id, seller).value;
      assert k != m;
      if k < m {
        assert r.0[k] == sales[k];
      } else {
        assert r.0[k - 1] == sales[k];
      }
    }
  }

  // ===========================================================================
  // On the database

  /** The edit page's POST on the database: the new table and the outcome are `EditSale`'s. */
  method PostEditSale(db: Db, id: int, seller: int, f: EditForm, now: int) returns (outcome: EditOutcome)
    requires db.Valid()
    modifies db
    ensures db.Valid()
    ensures (db.sales, outcome) == EditSale(old(db.sales), id, seller, f, now)
    ensures db.payments == old(db.payments)
    ensures db.nextSaleId == old(db.nextSaleId) && db.nextPaymentId == old(db.nextPaymentId)
  {
    var found := OwnSaleIndex(db.sales, id, seller);
    if found.None? {
      return NotFound;
    }
    var k := found.value;
    if db.sales[k].status == SalePaid {
      return RefusedPaid;
    }
    var errors := FormErrors(f);
    if errors != [] {
      return Invalid(errors);
    }
    db.sales := db.sales[k := Edited(db.sales[k], f, now)];
    outcome := Updated;
  }

  /** The delete action on the database: the new table and the outcome are `DeleteSale`'s. */
  method PostDeleteSale(db: Db, id: int, seller: int) returns (outcome: DeleteOutcome)
    requires db.Valid()
    modifies db
    ensures db.Valid()
    ensures (db.sales, outcome) == DeleteSale(old(db.sales), id, seller)
    ensures db.payments == old(db.payments)
    ensures db.nextSaleId == old(db.nextSaleId) && db.nextPaymentId == old(db.nextPaymentId)
  {
    var found := OwnSaleIndex(db.sales, id, seller);
    if found.None? {
      return DeleteNotFound;
    }
    var k := found.value;
    if db.sales[k].status == SalePaid {
      return DeleteRefusedPaid;
    }
    db.sales := db.sales[..k] + db.sales[k + 1..];
    outcome := Deleted;
  }
}
