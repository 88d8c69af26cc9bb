/**
  The two tables the reconciliation works on, `ventas` (sales) and `pagos_detectados`
  (payments found in bank statements), with the status enumerations of the schema.
  Money is in integer cents, an operation date is a day number, a timestamp is in seconds.
 */
module Records {
  import opened Wrappers

  /** `ventas.estado_banco`: PENDIENTE, EN_ESPERA_CONCILIACION, PAGADO, REVISAR. */
  datatype SaleStatus = SalePending | SaleAwaiting | SalePaid | SaleReview

  /** `pagos_detectados.estado_conciliacion`: PENDIENTE, MATCH, REVISAR. */
  datatype PaymentStatus = PaymentPending | PaymentMatch | PaymentReview

  /**
    A row of `ventas`. `created` is `fecha_creacion` in seconds, None when it is NULL or does
    not read as "YYYY-MM-DD HH:MM:SS"; `lastChange` is `fecha_ultimo_cambio`.
   */
  datatype Sale = Sale(
    id: int,
    folio: string,
    client: string,
    amount: int,
    account: int,
    seller: int,
    status: SaleStatus,
    created: Option<int>,
    lastChange: int,
    note: string)

  /**
    A row of `pagos_detectados`. `opDay` is `fecha_operacion` as a day number (None when it does
    not read as "YYYY-MM-DD"); `account` and `amount` may be NULL; `fingerprint` is `hash_unico`.
   */
  datatype Payment = Payment(
    id: int,
    bank: string,
    account: Option<int>,
    opDay: Option<int>,
    amount: Option<int>,
    reference: Option<string>,
    extReference: Option<string>,
    concept: Option<string>,
    balance: Option<int>,
    sourceFile: string,
    fingerprint: string,
    status: PaymentStatus,
    saleId: Option<int>)

  /** Rows are kept in rowid order: ids strictly increase along the table. */
  predicate SaleIdsIncrease(sales: seq<Sale>) {
    forall i, j :: 0 <= i < j < |sales| ==> sales[i].id < sales[j].id
  }

  predicate PaymentIdsIncrease(payments: seq<Payment>) {
    forall i, j :: 0 <= i < j < |payments| ==> payments[i].id < payments[j].id
  }

  /** The `UNIQUE` constraint on `hash_unico`. */
  predicate FingerprintsUnique(payments: seq<Payment>) {
    forall i, j :: 0 <= i < j < |payments| ==> payments[i].fingerprint != payments[j].fingerprint
  }

  predicate HasFingerprint(payments: seq<Payment>, fingerprint: string) {
    exists j :: 0 <= j < |payments| && payments[j].fingerprint == fingerprint
  }

  /** The payments that are MATCH and point at the sale with id `saleId`. */
  function Linkers(payments: seq<Payment>, saleId: int): set<nat> {
    set j | 0 <= j < |payments| && payments[j].status == PaymentMatch && payments[j].saleId == Some(saleId)
  }

  /**
    The relationship the design asks for: a PAGADO sale has exactly one MATCH payment
    pointing at it, any other sale has none.
   */
  ghost predicate PaidIffLinked(sales: seq<Sale>, payments: seq<Payment>) {
    forall k :: 0 <= k < |sales| ==> |Linkers(payments, sales[k].id)| == if sales[k].status == SalePaid then 1 else 0
  }

  /** The position of the sale with a given id, the lookup `WHERE id = ?` performs. */
  function SaleIndex(sales: seq<Sale>, id: int): (r: Option<nat>)
    ensures r.Some? ==> r.value < |sales| && sales[r.value].id == id
    ensures r.None? ==> forall k :: 0 <= k < |sales| ==> sales[k].id != id
  {
    if sales == [] then None
    else if sales[|sales| - 1].id == id then Some(|sales| - 1)
    else SaleIndex(sales[..|sales| - 1], id)
  }

  function PaymentIndex(payments: seq<Payment>, id: int): (r: Option<nat>)
    ensures r.Some? ==> r.value < |payments| && payments[r.value].id == id
    ensures r.None? ==> forall j :: 0 <= j < |payments| ==> payments[j].id != id
  {
    if payments == [] then None
    else if payments[|payments| - 1].id == id then Some(|payments| - 1)
    else PaymentIndex(payments[..|payments| - 1], id)
  }

  /** The database: both tables and the next AUTOINCREMENT value of each. */
  class Db {
    var sales: seq<Sale>
    var payments: seq<Payment>
    var nextSaleId: int
    var nextPaymentId: int

    ghost predicate Valid()
      reads this
    {
      && SaleIdsIncrease(sales)
      && PaymentIdsIncrease(payments)
      && FingerprintsUnique(payments)
      && (forall k :: 0 <= k < |sales| ==> sales[k].id < nextSaleId)
      && (forall j :: 0 <= j < |payments| ==> payments[j].id < nextPaymentId)
      && (forall j :: 0 <= j < |payments| && payments[j].saleId.Some? ==> payments[j].saleId.value < nextSaleId)
    }

    constructor ()
      ensures Valid()
      ensures sales == [] && payments == [] && nextSaleId == 1 && nextPaymentId == 1
    {
      sales, payments := [], [];
      nextSaleId, nextPaymentId := 1, 1;
    }
  }
}
