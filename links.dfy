/**
  The payment page: the list of sales an operator may link a payment to by hand, and the
  two ways of linking it, by the id of a listed sale or by a typed folio. Both perform the
  engine's dual transition (payment MATCH with the link, sale PAGADO).
 */
module ManualLink {
  import opened Wrappers
  import opened Decimals
  import opened Records
  import opened Sorting
  import opened Conciliacion

  // ===========================================================================
  // obtener_candidatos

  /** The sale may still be linked by hand: PENDIENTE or EN_ESPERA_CONCILIACION. */
  predicate IsOpen(s: Sale) {
    s.status == SalePending || s.status == SaleAwaiting
  }

  /** Same account and amount as the payment, and still open. */
  predicate Offered(s: Sale, p: Payment) {
    p.account.Some? && p.amount.Some? && s.account == p.account.value && s.amount == p.amount.value && IsOpen(s)
  }

  /** The positions below `n` of the sales offered for `p`, in table order. */
  function OfferedUpTo(sales: seq<Sale>, p: Payment, n: nat): (r: seq<nat>)
    requires n <= |sales|
    ensures forall t :: 0 <= t < |r| ==> r[t] < n
    ensures Distinct(r)
    ensures forall a, b :: 0 <= a < b < |r| ==> r[a] < r[b]
    ensures forall k: nat :: k in r <==> k < n && Offered(sales[k], p)
  {
    if n == 0 then []
    else
      var r := OfferedUpTo(sales, p, n - 1);
      if Offered(sales[n - 1], p) then r + [n - 1] else r
  }

  /**
    `ORDER BY fecha_creacion DESC`: a later creation first; a missing creation time sorts
    after every present one, as NULL does in a descending SQLite sort.
   */
  predicate NewerOrSame(a: Option<int>, b: Option<int>) {
    match (a, b)
    case (Some(x), Some(y)) => x >= y
    case (Some(_), None) => true
    case (None, None) => true
    case (None, Some(_)) => false
  }

  function CreatedAt(sales: seq<Sale>, k: nat): Option<int> {
    if k < |sales| then sales[k].created else None
  }

  function NewerFirst(sales: seq<Sale>): (nat, nat) -> bool {
    (a: nat, b: nat) => NewerOrSame(CreatedAt(sales, a), CreatedAt(sales, b))
  }

  lemma NewerFirstTotal(sales: seq<Sale>)
    ensures IsTotalPreorder(NewerFirst(sales))
  {
  }

  /** The offered sales, newest first. */
  function OfferedNewestFirst(sales: seq<Sale>, p: Payment): (r: seq<nat>)
    ensures Distinct(r)
    ensures forall t :: 0 <= t < |r| ==> r[t] < |sales| && Offered(sales[r[t]], p)
    ensures forall k :: 0 <= k < |sales| && Offered(sales[k], p) ==> k in r
    ensures SortedBy(r, NewerFirst(sales))
    ensures TiesAscending(r, NewerFirst(sales))
  {
    var all := OfferedUpTo(sales, p, |sales|);
    NewerFirstTotal(sales);
    var sorted := InsertionSort(all, NewerFirst(sales));
    InsertionSortStable(all, NewerFirst(sales));
    assert forall t :: 0 <= t < |sorted| ==> sorted[t] in all;
    sorted
  }

  /** `LIMIT 30`. */
  const MaxOffered: nat := 30

  /** `obtener_candidatos`: the first thirty offered sales, newest first. */
  function ManualCandidates(sales: seq<Sale>, p: Payment): (r: seq<nat>)
    ensures |r| <= MaxOffered
  {
    var sorted := OfferedNewestFirst(sales, p);
    if |sorted| <= MaxOffered then sorted else sorted[..MaxOffered]
  }

  /**
    The list holds offered sales only, each once, newest first, sales created at the same
    time in table order; a sale offered but left off
    is no newer than any sale on it, and is left off only when the list is full.
   */
  lemma ManualCandidatesSpec(sales: seq<Sale>, p: Payment)
    ensures var r := ManualCandidates(sales, p);
      && Distinct(r)
      && (forall t :: 0 <= t < |r| ==> r[t] < |sales| && Offered(sales[r[t]], p))
      && (forall a, b :: 0 <= a < b < |r| ==> NewerOrSame(sales[r[a]].created, sales[r[b]].created))
      && (forall a, b :: 0 <= a < b < |r| && NewerOrSame(sales[r[b]].created, sales[r[a]].created) ==> r[a] < r[b])
      && (forall k :: 0 <= k < |sales| && Offered(sales[k], p) && k !in r ==>
            |r| == MaxOffered && forall t :: 0 <= t < |r| ==> NewerOrSame(sales[r[t]].created, sales[k].created))
  {
    var sorted := OfferedNewestFirst(sales, p);
    var r := ManualCandidates(sales, p);
    assert forall t :: 0 <= t < |r| ==> r[t] == sorted[t];
    forall a, b | 0 <= a < b < |r|
      ensures NewerOrSame(sales[r[a]].created, sales[r[b]].created)
    {
      assert NewerFirst(sales)(sorted[a], sorted[b]);
    }
    forall a, b | 0 <= a < b < |r| && NewerOrSame(sales[r[b]].created, sales[r[a]].created)
      ensures r[a] < r[b]
    {
      assert NewerFirst(sales)(sorted[b], sorted[a]);
    }
    forall k | 0 <= k < |sales| && Offered(sales[k], p) && k !in r
      ensures |r| == MaxOffered && forall t :: 0 <= t < |r| ==> NewerOrSame(sales[r[t]].created, sales[k].created)
    {
      var q :| 0 <= q < |sorted| && sorted[q] == k;
      assert q >= |r|;
      forall t | 0 <= t < |r|
        ensures NewerOrSame(sales[r[t]].created, sales[k].created)
      {
        assert NewerFirst(sales)(sorted[t], sorted[q]);
      }
    }
  }

  /** The page lists candidates only for a payment not yet linked to a sale (`venta_id is None`). */
  function PageCandidates(sales: seq<Sale>, p: Payment): (r: seq<nat>)
    ensures p.saleId.Some? ==> r == []
    ensures p.saleId.None? ==> r == ManualCandidates(sales, p)
    ensures |r| <= MaxOffered
    ensures forall t :: 0 <= t < |r| ==> r[t] < |sales| && Offered(sales[r[t]], p)
  {
    ManualCandidatesSpec(sales, p);
    if p.saleId.None? then ManualCandidates(sales, p) else []
  }

  lemma {:induction false} NothingOfferedUpTo(sales: seq<Sale>, p: Payment, n: nat)
    requires n <= |sales|
    requires p.account.None? || p.amount.None?
    ensures OfferedUpTo(sales, p, n) == []
  {
    if n > 0 {
      NothingOfferedUpTo(sales, p, n - 1);
    }
  }

  /** No account or no amount: nothing is offered. */
  lemma NothingOfferedWithoutAccountOrAmount(sales: seq<Sale>, p: Payment)
    requires p.account.None? || p.amount.None?
    ensures ManualCandidates(sales, p) == []
  {
    NothingOfferedUpTo(sales, p, |sales|);
    assert |OfferedNewestFirst(sales, p)| == 0 by {
      NewerFirstTotal(sales);
      var e: seq<nat> := [];
      assert InsertionSort(e, NewerFirst(sales)) == [];
    }
  }

  // ===========================================================================
  // The two links

  datatype LinkOutcome =
    | PaymentNotFound        // 404 "Pago no encontrado"
    | BadSaleId              // "ID de venta no válido."
    | SaleNotOpen            // "La venta seleccionada no existe o ya no está pendiente."
    | FolioMissing           // "Debes escribir un folio de venta."
    | FolioUnknown           // "No se encontró ninguna venta con folio ..."
    | PaymentAlreadyLinked   // refused by the guarded link only
    | Linked(saleId: int)    // "Pago asociado correctamente ..."

  datatype LinkResult = LinkResult(sales: seq<Sale>, payments: seq<Payment>, outcome: LinkOutcome)

  /** The two UPDATEs: the payment at `i` to MATCH with the link, the sale at `k` to PAGADO. */
  function Link(sales: seq<Sale>, ps: seq<Payment>, i: nat, k: nat, now: int): (r: LinkResult)
    requires i < |ps| && k < |sales|
    ensures |r.sales| == |sales| && |r.payments| == |ps|
    ensures r.outcome == Linked(sales[k].id)
    ensures r.payments[i] == ps[i].(status := PaymentMatch, saleId := Some(sales[k].id))
    ensures r.sales[k] == sales[k].(status := SalePaid, lastChange := now)
    ensures forall j :: 0 <= j < |ps| && j != i ==> r.payments[j] == ps[j]
    ensures forall m :: 0 <= m < |sales| && m != k ==> r.sales[m] == sales[m]
  {
    LinkResult(sales[k := MarkPaid(sales[k], now)], ps[i := MarkMatched(ps[i], sales[k].id)], Linked(sales[k].id))
  }

  /** `SELECT * FROM ventas WHERE id = ? AND estado_banco IN ('PENDIENTE', 'EN_ESPERA_CONCILIACION')`. */
  function OpenSaleIndex(sales: seq<Sale>, id: int): (r: Option<nat>)
    ensures r.Some? ==> r.value < |sales| && sales[r.value].id == id && IsOpen(sales[r.value])
    ensures r.None? && SaleIdsIncrease(sales) ==> forall k :: 0 <= k < |sales| && sales[k].id == id ==> !IsOpen(sales[k])
  {
    match SaleIndex(sales, id)
    case None => None
    case Some(k) => if IsOpen(sales[k]) then Some(k) else None
  }

  /**
    The branch taken when `venta_id_directo` is filled in: the text must read as an integer,
    and a sale with that id must exist and be open; only then does anything change.
   */
  function LinkById(sales: seq<Sale>, ps: seq<Payment>, paymentId: int, idText: string, now: int): (r: LinkResult)
    ensures r.outcome.Linked? ==>
      exists i, k :: 0 <= i < |ps| && 0 <= k < |sales| && ps[i].id == paymentId &&
        ParseInteger(idText) == Some(sales[k].id) && IsOpen(sales[k]) && r == Link(sales, ps, i, k, now)
    ensures (PaymentIndex(ps, paymentId).Some? && ParseInteger(idText).Some? &&
             OpenSaleIndex(sales, ParseInteger(idText).value).Some?) ==>
        r == Link(sales, ps, PaymentIndex(ps, paymentId).value, OpenSaleIndex(sales, ParseInteger(idText).value).value, now)
    ensures SaleIdsIncrease(sales) ==>
      (r.outcome.Linked? <==>
        PaymentIndex(ps, paymentId).Some? && ParseInteger(idText).Some? &&
        exists k :: 0 <= k < |sales| && sales[k].id == ParseInteger(idText).value && IsOpen(sales[k]))
    ensures !r.outcome.Linked? ==> r.sales == sales && r.payments == ps
    ensures r.outcome == PaymentNotFound <==> PaymentIndex(ps, paymentId).None?
    ensures r.outcome == BadSaleId <==> PaymentIndex(ps, paymentId).Some? && ParseInteger(idText).None?
    ensures r.outcome == SaleNotOpen <==>
      PaymentIndex(ps, paymentId).Some? && ParseInteger(idText).Some? && OpenSaleIndex(sales, ParseInteger(idText).value).None?
  {
    match PaymentIndex(ps, paymentId)
    case None => LinkResult(sales, ps, PaymentNotFound)
    case Some(i) =>
      match ParseInteger(idText)
      case None => LinkResult(sales, ps, BadSaleId)
      case Some(id) =>
        match OpenSaleIndex(sales, id)
        case None => LinkResult(sales, ps, SaleNotOpen)
        case Some(k) => Link(sales, ps, i, k, now)
  }

  /** The first sale in table order whose folio is exactly `folio` (`fetchone()`). */
  function FirstWithFolio(sales: seq<Sale>, folio: string): (r: Option<nat>)
    ensures r.Some? ==> r.value < |sales| && sales[r.value].folio == folio
    ensures r.Some? ==> forall m :: 0 <= m < r.value ==> sales[m].folio != folio
    ensures r.None? ==> forall m :: 0 <= m < |sales| ==> sales[m].folio != folio
  {
    if sales == [] then None
    else if sales[0].folio == folio then Some(0)
    else match FirstWithFolio(sales[1..], folio)
      case None => None
      case Some(m) => Some(m + 1)
  }

  /**
    The branch taken otherwise: the typed folio must be non-empty and name some sale; the
    first such sale is linked whatever its status and whatever the payment's.
   */
  function LinkByFolio(sales: seq<Sale>, ps: seq<Payment>, paymentId: int, folio: string, now: int): (r: LinkResult)
    ensures r.outcome.Linked? ==>
      exists i, k :: 0 <= i < |ps| && 0 <= k < |sales| && ps[i].id == paymentId &&
        FirstWithFolio(sales, folio) == Some(k) && r == Link(sales, ps, i, k, now)
    ensures PaymentIndex(ps, paymentId).Some? && folio != [] && FirstWithFolio(sales, folio).Some? ==>
      r == Link(sales, ps, PaymentIndex(ps, paymentId).value, FirstWithFolio(sales, folio).value, now)
    ensures r.outcome.Linked? <==>
      PaymentIndex(ps, paymentId).Some? && folio != [] && exists k :: 0 <= k < |sales| && sales[k].folio == folio
    ensures !r.outcome.Linked? ==> r.sales == sales && r.payments == ps
    ensures r.outcome == PaymentNotFound <==> PaymentIndex(ps, paymentId).None?
    ensures r.outcome == FolioMissing <==> PaymentIndex(ps, paymentId).Some? && folio == []
    ensures r.outcome == FolioUnknown <==>
      PaymentIndex(ps, paymentId).Some? && folio != [] && FirstWithFolio(sales, folio).None?
  {
    match PaymentIndex(ps, paymentId)
    case None => LinkResult(sales, ps, PaymentNotFound)
    case Some(i) =>
      if folio == [] then LinkResult(sales, ps, FolioMissing)
      else
        match FirstWithFolio(sales, folio)
        case None => LinkResult(sales, ps, FolioUnknown)
        case Some(k) => Link(sales, ps, i, k, now)
  }

  /** The POST of the payment page: a filled-in sale id wins over the folio field. */
  function ManualLinkPost(sales: seq<Sale>, ps: seq<Payment>, paymentId: int, idText: string, folio: string, now: int): (r: LinkResult)
    ensures idText != [] ==> r == LinkById(sales, ps, paymentId, idText, now)
    ensures idText == [] ==> r == LinkByFolio(sales, ps, paymentId, folio, now)
    ensures SaleIdsIncrease(sales) ==>
      (r.outcome.Linked? <==>
        PaymentIndex(ps, paymentId).Some? &&
        if idText != [] then
          ParseInteger(idText).Some? &&
          exists k :: 0 <= k < |sales| && sales[k].id == ParseInteger(idText).value && IsOpen(sales[k])
        else
          folio != [] && exists k :: 0 <= k < |sales| && sales[k].folio == folio)
    ensures r.outcome.Linked? && idText != [] ==> Some(r.outcome.saleId) == ParseInteger(idText)
    ensures r.outcome.Linked? && idText == [] ==>
      FirstWithFolio(sales, folio).Some? && r.outcome.saleId == sales[FirstWithFolio(sales, folio).value].id
    ensures !r.outcome.Linked? ==> r.sales == sales && r.payments == ps
  {
    if idText != [] then LinkById(sales, ps, paymentId, idText, now) else LinkByFolio(sales, ps, paymentId, folio, now)
  }

  // ===========================================================================
  // Links and the PAGADO-iff-linked relationship

  /** Linking an open sale with a payment that is not MATCH keeps PAGADO-iff-linked. */
  lemma LinkKeepsPaidIffLinked(sales: seq<Sale>, ps: seq<Payment>, i: nat, k: nat, now: int)
    requires SaleIdsIncrease(sales)
    requires PaidIffLinked(sales, ps)
    requires i < |ps| && k < |sales|
    requires ps[i].status != PaymentMatch
    requires sales[k].status != SalePaid
    ensures var r := Link(sales, ps, i, k, now); PaidIffLinked(r.sales, r.payments)
  {
    var r := Link(sales, ps, i, k, now);
    var q := MarkMatched(ps[i], sales[k].id);
    forall m | 0 <= m < |r.sales|
      ensures |Linkers(r.payments, r.sales[m].id)| == if r.sales[m].status == SalePaid then 1 else 0
    {
      LinkersUpdate(ps, i, q, sales[m].id);
      if m != k {
        assert sales[m].id != sales[k].id;
      }
    }
  }

  /** As written, the link by id keeps the relationship when the payment was not yet MATCH. */
  lemma LinkByIdKeepsPaidIffLinked(sales: seq<Sale>, ps: seq<Payment>, paymentId: int, idText: string, now: int)
    requires SaleIdsIncrease(sales)
    requires PaidIffLinked(sales, ps)
    requires forall j :: 0 <= j < |ps| && ps[j].id == paymentId ==> ps[j].status != PaymentMatch
    ensures var r := LinkById(sales, ps, paymentId, idText, now); PaidIffLinked(r.sales, r.payments)
  {
    var r := LinkById(sales, ps, paymentId, idText, now);
    if r.outcome.Linked? {
      var i, k :| 0 <= i < |ps| && 0 <= k < |sales| && ps[i].id == paymentId &&
        ParseInteger(idText) == Some(sales[k].id) && IsOpen(sales[k]) && r == Link(sales, ps, i, k, now);
      LinkKeepsPaidIffLinked(sales, ps, i, k, now);
    }
  }

  // ---------------------------------------------------------------------------
  // Two counterexamples

  function ExampleSale(id: int, folio: string, status: SaleStatus): Sale {
    Sale(id, folio, "Cliente", 50000, 1, 1, status, None, 0, "")
  }

  function ExamplePayment(id: int, fingerprint: string, status: PaymentStatus, saleId: Option<int>): Payment {
    Payment(id, "BBVA", Some(1), Some(0), Some(50000), None, None, None, None, "", fingerprint, status, saleId)
  }

  /**
    A folio typed for a sale already PAGADO links a second payment to it: the sale ends with
    two MATCH payments, against the one the design allows.
   */
  lemma FolioLinkToPaidSale()
    ensures var sales := [ExampleSale(1, "F-1", SalePaid)];
      var ps := [ExamplePayment(1, "h1", PaymentMatch, Some(1)), ExamplePayment(2, "h2", PaymentPending, None)];
      && PaidIffLinked(sales, ps)
      && !PaidIffLinked(LinkByFolio(sales, ps, 2, "F-1", 0).sales, LinkByFolio(sales, ps, 2, "F-1", 0).payments)
  {
    var sales := [ExampleSale(1, "F-1", SalePaid)];
    var ps := [ExamplePayment(1, "h1", PaymentMatch, Some(1)), ExamplePayment(2, "h2", PaymentPending, None)];
    assert Linkers(ps, 1) == {0};
    var r := LinkByFolio(sales, ps, 2, "F-1", 0);
    assert r == Link(sales, ps, 1, 0, 0);
    assert Linkers(r.payments, 1) == {0, 1};
  }

  /**
    A payment already MATCH, linked again (by id, here) to another open sale, leaves its first
    sale PAGADO with no MATCH payment at all.
   */
  lemma RelinkOrphansSale()
    ensures var sales := [ExampleSale(1, "F-1", SalePaid), ExampleSale(2, "F-2", SalePending)];
      var ps := [ExamplePayment(1, "h1", PaymentMatch, Some(1))];
      && PaidIffLinked(sales, ps)
      && !PaidIffLinked(LinkById(sales, ps, 1, "2", 0).sales, LinkById(sales, ps, 1, "2", 0).payments)
  {
    var sales := [ExampleSale(1, "F-1", SalePaid), ExampleSale(2, "F-2", SalePending)];
    var ps := [ExamplePayment(1, "h1", PaymentMatch, Some(1))];
    assert Linkers(ps, 1) == {0};
    assert Linkers(ps, 2) == {};
    ParseIntegerNat(2);
    assert NatToString(2) == "2";
    var r := LinkById(sales, ps, 1, "2", 0);
    assert r == Link(sales, ps, 0, 1, 0);
    assert r.sales[0] == sales[0];
    assert Linkers(r.payments, 1) == {};
  }

  // ---------------------------------------------------------------------------
  // The guarded link

  /** The first open sale in table order whose folio is exactly `folio`. */
  function FirstOpenWithFolio(sales: seq<Sale>, folio: string): (r: Option<nat>)
    ensures r.Some? ==> r.value < |sales| && sales[r.value].folio == folio && IsOpen(sales[r.value])
    ensures r.None? ==> forall m :: 0 <= m < |sales| && sales[m].folio == folio ==> !IsOpen(sales[m])
  {
    if sales == [] then None
    else if sales[0].folio == folio && IsOpen(sales[0]) then Some(0)
    else match FirstOpenWithFolio(sales[1..], folio)
      case None => None
      case Some(m) => Some(m + 1)
  }

  /**
    Both branches with the guard the design asks of a manual link: a payment already MATCH
    is refused, and the folio branch, like the id branch, only finds open sales.
   */
  function GuardedLink(sales: seq<Sale>, ps: seq<Payment>, paymentId: int, idText: string, folio: string, now: int): (r: LinkResult)
    ensures !r.outcome.Linked? ==> r.sales == sales && r.payments == ps
    ensures r.outcome.Linked? ==>
      exists i, k :: 0 <= i < |ps| && 0 <= k < |sales| && ps[i].id == paymentId &&
        ps[i].status != PaymentMatch && IsOpen(sales[k]) && r == Link(sales, ps, i, k, now)
    ensures r.outcome == PaymentNotFound <==> PaymentIndex(ps, paymentId).None?
    ensures r.outcome == PaymentAlreadyLinked <==>
      PaymentIndex(ps, paymentId).Some? && ps[PaymentIndex(ps, paymentId).value].status == PaymentMatch
    ensures (PaymentIndex(ps, paymentId).Some? && ps[PaymentIndex(ps, paymentId).value].status != PaymentMatch &&
             idText != [] && ParseInteger(idText).Some? && OpenSaleIndex(sales, ParseInteger(idText).value).Some?) ==>
        r == Link(sales, ps, PaymentIndex(ps, paymentId).value, OpenSaleIndex(sales, ParseInteger(idText).value).value, now)
    ensures (PaymentIndex(ps, paymentId).Some? && ps[PaymentIndex(ps, paymentId).value].status != PaymentMatch &&
             idText == [] && folio != [] && FirstOpenWithFolio(sales, folio).Some?) ==>
        r == Link(sales, ps, PaymentIndex(ps, paymentId).value, FirstOpenWithFolio(sales, folio).value, now)
    ensures SaleIdsIncrease(sales) ==>
      (r.outcome.Linked? <==>
        PaymentIndex(ps, paymentId).Some? && ps[PaymentIndex(ps, paymentId).value].status != PaymentMatch &&
        if idText != [] then
          ParseInteger(idText).Some? &&
          exists k :: 0 <= k < |sales| && sales[k].id == ParseInteger(idText).value && IsOpen(sales[k])
        else
          folio != [] && exists k :: 0 <= k < |sales| && sales[k].folio == folio && IsOpen(sales[k]))
  {
    match PaymentIndex(ps, paymentId)
    case None => LinkResult(sales, ps, PaymentNotFound)
    case Some(i) =>
      if ps[i].status == PaymentMatch then LinkResult(sales, ps, PaymentAlreadyLinked)
      else if idText != [] then
        match ParseInteger(idText)
        case None => LinkResult(sales, ps, BadSaleId)
        case Some(id) =>
          match OpenSaleIndex(sales, id)
          case None => LinkResult(sales, ps, SaleNotOpen)
          case Some(k) => Link(sales, ps, i, k, now)
      else if folio == [] then LinkResult(sales, ps, FolioMissing)
      else
        match FirstOpenWithFolio(sales, folio)
        case None => LinkResult(sales, ps, FolioUnknown)
        case Some(k) => Link(sales, ps, i, k, now)
  }

  /** The guarded link keeps every PAGADO sale linked by exactly one MATCH payment and every other by none. */
  lemma GuardedLinkKeepsPaidIffLinked(sales: seq<Sale>, ps: seq<Payment>, paymentId: int, idText: string, folio: string, now: int)
    requires SaleIdsIncrease(sales)
    requires PaidIffLinked(sales, ps)
    ensures var r := GuardedLink(sales, ps, paymentId, idText, folio, now); PaidIffLinked(r.sales, r.payments)
  {
    var r := GuardedLink(sales, ps, paymentId, idText, folio, now);
    if r.outcome.Linked? {
      var i, k :| 0 <= i < |ps| && 0 <= k < |sales| && ps[i].id == paymentId &&
        ps[i].status != PaymentMatch && IsOpen(sales[k]) && r == Link(sales, ps, i, k, now);
      LinkKeepsPaidIffLinked(sales, ps, i, k, now);
    }
  }

  /** For a payment not yet MATCH, the guarded link by id is the written one. */
  lemma GuardedAgreesById(sales: seq<Sale>, ps: seq<Payment>, paymentId: int, idText: string, folio: string, now: int)
    requires idText != []
    requires forall j :: 0 <= j < |ps| && ps[j].id == paymentId ==> ps[j].status != PaymentMatch
    ensures GuardedLink(sales, ps, paymentId, idText, folio, now) == ManualLinkPost(sales, ps, paymentId, idText, folio, now)
  {
  }

  /** The guard refuses the written folio link's two unsafe cases: a MATCH payment, and a folio of no open sale. */
  lemma GuardedRefusesUnsafeFolio(sales: seq<Sale>, ps: seq<Payment>, paymentId: int, folio: string, now: int)
    requires PaymentIndex(ps, paymentId).Some?
    requires folio != []
    ensures ps[PaymentIndex(ps, paymentId).value].status == PaymentMatch ==>
      GuardedLink(sales, ps, paymentId, "", folio, now).outcome == PaymentAlreadyLinked
    ensures (ps[PaymentIndex(ps, paymentId).value].status != PaymentMatch &&
             forall m :: 0 <= m < |sales| && sales[m].folio == folio ==> !IsOpen(sales[m])) ==>
      GuardedLink(sales, ps, paymentId, "", folio, now).outcome == FolioUnknown
  {
  }

  // ===========================================================================
  // The page's POST on the database

  /** The POST branch of the payment page on the database: the outcome and the new tables are `ManualLinkPost`'s. */
  method PostManualLink(db: Db, paymentId: int, idText: string, folio: string, now: int) returns (outcome: LinkOutcome)
    requires db.Valid()
    modifies db
    ensures db.Valid()
    ensures LinkResult(db.sales, db.payments, outcome) == ManualLinkPost(old(db.sales), old(db.payments), paymentId, idText, folio, now)
    ensures db.nextSaleId == old(db.nextSaleId) && db.nextPaymentId == old(db.nextPaymentId)
  {
    var found := PaymentIndex(db.payments, paymentId);
    if found.None? {
      return PaymentNotFound;
    }
    var i := found.value;
    var k: nat;
    if idText != [] {
      var id := ParseInteger(idText);
      if id.None? {
        return BadSaleId;
      }
      var open := OpenSaleIndex(db.sales, id.value);
      if open.None? {
        return SaleNotOpen;
      }
      k := open.value;
    } else {
      if folio == [] {
        return FolioMissing;
      }
      var first := FirstWithFolio(db.sales, folio);
      if first.None? {
        return FolioUnknown;
      }
      k := first.value;
    }
    var sale := db.sales[k];
    db.payments := db.payments[i := MarkMatched(db.payments[i], sale.id)];
    db.sales := db.sales[k := MarkPaid(sale, now)];
    outcome := Linked(sale.id);
  }
}
