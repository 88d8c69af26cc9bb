/**
  Loading a BBVA statement: every row with a date and a credited amount becomes a payment
  whose fingerprint is the `|`-joined text of its defining fields; `INSERT OR IGNORE` against
  the `UNIQUE` fingerprint column turns a row already loaded into a silent no-op.
 */
module Ingest {
  import opened Wrappers
  import opened Text
  import opened Decimals
  import opened Records
  import opened Conciliacion

  /**
    A statement row after the spreadsheet is read: amounts in cents, the date as a day and as
    ISO text. `opDay` is None when the date cell is empty, `amount` when the `Abono` cell is
    empty or does not read as a number.
   */
  datatype StatementRow = StatementRow(
    opDay: Option<int>,
    dateText: string,
    amount: Option<int>,
    reference: string,
    extReference: string,
    concept: string,
    balance: Option<int>)

  /** Python's `str()` of the float `c / 100`: the whole units, a point, and the shortest fraction (at least one digit). */
  function FloatText(c: int): (s: string)
    ensures s != []
  {
    var m: nat := if c < 0 then -c else c;
    var r := m % 100;
    var fraction :=
      if r == 0 then "0"
      else if r % 10 == 0 then [DigitChar(r / 10)]
      else [DigitChar(r / 10), DigitChar(r % 10)];
    (if c < 0 then "-" else "") + NatToString(m / 100) + "." + fraction
  }

  /** `{saldo_post}`: "None" when the balance is missing. */
  function BalanceText(balance: Option<int>): string {
    match balance
    case None => "None"
    case Some(b) => FloatText(b)
  }

  /**
    A row the loop goes on to insert: the `Abono > 0` filter before the loop keeps only rows
    with a positive credited amount, and the loop passes over a row without a date.
   */
  predicate Loaded(row: StatementRow) {
    row.opDay.Some? && row.amount.Some? && row.amount.value > 0
  }

  /** `BBVA|cuenta|fecha|monto|referencia|referencia ampliada|saldo`: the concept is not part of it. */
  function FingerprintFields(accountNumber: string, row: StatementRow): (r: seq<string>)
    requires row.amount.Some?
    ensures |r| == 7
  {
    ["BBVA", accountNumber, row.dateText, FloatText(row.amount.value), row.reference, row.extReference, BalanceText(row.balance)]
  }

  /** The `hash_unico` of a row; the SHA-256 digest of this text is taken to be one-to-one. */
  function Fingerprint(accountNumber: string, row: StatementRow): string
    requires row.amount.Some?
  {
    JoinWith(FingerprintFields(accountNumber, row), '|')
  }

  /** The row as it is inserted, with the next AUTOINCREMENT value as its id. */
  function NewPayment(id: int, account: Option<int>, accountNumber: string, row: StatementRow, file: string): (p: Payment)
    requires row.amount.Some?
    ensures p.status == PaymentPending && p.saleId.None?
  {
    Payment(id, "BBVA", account, row.opDay, row.amount, Some(row.reference), Some(row.extReference),
            Some(row.concept), row.balance, file, Fingerprint(accountNumber, row), PaymentPending, None)
  }

  /**
    `INSERT OR IGNORE`: the table is unchanged when the fingerprint is taken, else the row is
    appended with the next id. AUTOINCREMENT spends that id either way: SQLite allocates the
    rowid before the UNIQUE check turns the insert into a no-op.
   */
  function InsertOrIgnore(ps: seq<Payment>, next: int, p: Payment): (r: (seq<Payment>, int))
    ensures r.1 == next + 1
    ensures HasFingerprint(ps, p.fingerprint) ==> r.0 == ps
    ensures !HasFingerprint(ps, p.fingerprint) ==> r == (ps + [p.(id := next)], next + 1)
    ensures HasFingerprint(r.0, p.fingerprint)
    ensures |ps| <= |r.0| <= |ps| + 1 && r.0[..|ps|] == ps
    ensures FingerprintsUnique(ps) ==> FingerprintsUnique(r.0)
  {
    if HasFingerprint(ps, p.fingerprint) then (ps, next + 1)
    else
      var r := ps + [p.(id := next)];
      assert r[|ps|].fingerprint == p.fingerprint;
      (r, next + 1)
  }

  /** One row of the loop: a row without date or without amount is passed over before anything else happens. */
  function ImportRow(ps: seq<Payment>, next: int, account: Option<int>, accountNumber: string, row: StatementRow, file: string): (seq<Payment>, int)
  {
    if !Loaded(row) then (ps, next)
    else InsertOrIgnore(ps, next, NewPayment(next, account, accountNumber, row, file))
  }

  /** The rows in file order. */
  function ImportRows(ps: seq<Payment>, next: int, account: Option<int>, accountNumber: string, rows: seq<StatementRow>, file: string): (r: (seq<Payment>, int))
    decreases |rows|
  {
    if rows == [] then (ps, next)
    else
      var mid := ImportRows(ps, next, account, accountNumber, rows[..|rows| - 1], file);
      ImportRow(mid.0, mid.1, account, accountNumber, rows[|rows| - 1], file)
  }

  /** `insertados`: every row with date and amount is counted, whether it was inserted or ignored. */
  function LoadedRows(rows: seq<StatementRow>): (n: nat)
    ensures n <= |rows|
  {
    if rows == [] then 0 else LoadedRows(rows[..|rows| - 1]) + if Loaded(rows[|rows| - 1]) then 1 else 0
  }

  // ---------------------------------------------------------------------------
  // What an import keeps

  /** The part of `Db.Valid` that concerns the payment table. */
  predicate PaymentsValid(ps: seq<Payment>, next: int, nextSale: int) {
    && PaymentIdsIncrease(ps)
    && FingerprintsUnique(ps)
    && (forall j :: 0 <= j < |ps| ==> ps[j].id < next)
    && (forall j :: 0 <= j < |ps| && ps[j].saleId.Some? ==> ps[j].saleId.value < nextSale)
  }

  lemma ImportRowKeepsValid(ps: seq<Payment>, next: int, nextSale: int, account: Option<int>, accountNumber: string, row: StatementRow, file: string)
    requires PaymentsValid(ps, next, nextSale)
    ensures PaymentsValid(ImportRow(ps, next, account, accountNumber, row, file).0, ImportRow(ps, next, account, accountNumber, row, file).1, nextSale)
    ensures next <= ImportRow(ps, next, account, accountNumber, row, file).1
  {
  }

  /**
    An import keeps ids increasing and fingerprints unique, never alters a row already
    there, and only appends new PENDIENTE rows linked to no sale.
   */
  lemma {:induction false} ImportKeeps(ps: seq<Payment>, next: int, nextSale: int, account: Option<int>, accountNumber: string, rows: seq<StatementRow>, file: string)
    requires PaymentsValid(ps, next, nextSale)
    ensures var r := ImportRows(ps, next, account, accountNumber, rows, file);
      && PaymentsValid(r.0, r.1, nextSale)
      && r.1 == next + LoadedRows(rows)
      && |ps| <= |r.0| <= |ps| + |rows|
      && r.0[..|ps|] == ps
      && (forall j :: |ps| <= j < |r.0| ==> r.0[j].status == PaymentPending && r.0[j].saleId.None?)
    decreases |rows|
  {
    if rows != [] {
      var mid := ImportRows(ps, next, account, accountNumber, rows[..|rows| - 1], file);
      ImportKeeps(ps, next, nextSale, account, accountNumber, rows[..|rows| - 1], file);
      ImportRowKeepsValid(mid.0, mid.1, nextSale, account, accountNumber, rows[|rows| - 1], file);
      var r := ImportRow(mid.0, mid.1, account, accountNumber, rows[|rows| - 1], file);
      if r.0 != mid.0 {
        assert r.0 == mid.0 + [r.0[|r.0| - 1]];
        assert r.0[..|ps|] == mid.0[..|ps|];
      }
    }
  }

  /** A fingerprint once present stays present. */
  lemma {:induction false} ImportKeepsFingerprint(ps: seq<Payment>, next: int, account: Option<int>, accountNumber: string, rows: seq<StatementRow>, file: string, f: string)
    requires HasFingerprint(ps, f)
    ensures HasFingerprint(ImportRows(ps, next, account, accountNumber, rows, file).0, f)
    decreases |rows|
  {
    if rows != [] {
      ImportKeepsFingerprint(ps, next, account, accountNumber, rows[..|rows| - 1], file, f);
      var mid := ImportRows(ps, next, account, accountNumber, rows[..|rows| - 1], file);
      var j :| 0 <= j < |mid.0| && mid.0[j].fingerprint == f;
      var r := ImportRow(mid.0, mid.1, account, accountNumber, rows[|rows| - 1], file);
      assert r.0[j] == mid.0[j];
    }
  }

  /** After an import, the fingerprint of every row with date and amount is in the table. */
  lemma {:induction false} ImportRecordsRows(ps: seq<Payment>, next: int, account: Option<int>, accountNumber: string, rows: seq<StatementRow>, file: string)
    ensures forall i :: 0 <= i < |rows| && Loaded(rows[i]) ==>
      HasFingerprint(ImportRows(ps, next, account, accountNumber, rows, file).0, Fingerprint(accountNumber, rows[i]))
    decreases |rows|
  {
    if rows != [] {
      var init := rows[..|rows| - 1];
      var last := rows[|rows| - 1];
      var mid := ImportRows(ps, next, account, accountNumber, init, file);
      var r := ImportRows(ps, next, account, accountNumber, rows, file);
      ImportRecordsRows(ps, next, account, accountNumber, init, file);
      forall i | 0 <= i < |rows| && Loaded(rows[i])
        ensures HasFingerprint(r.0, Fingerprint(accountNumber, rows[i]))
      {
        if i < |rows| - 1 {
          assert rows[i] == init[i];
          var f := Fingerprint(accountNumber, rows[i]);
          assert HasFingerprint(mid.0, f);
          var j :| 0 <= j < |mid.0| && mid.0[j].fingerprint == f;
          assert r == ImportRow(mid.0, mid.1, account, accountNumber, last, file);
          assert r.0[j] == mid.0[j];
        } else {
          var p := NewPayment(mid.1, account, accountNumber, last, file);
          if !HasFingerprint(mid.0, p.fingerprint) {
            assert r.0[|r.0| - 1].fingerprint == p.fingerprint;
          }
        }
      }
    }
  }

  /** Rows whose fingerprints are all in the table leave it unchanged, though each spends an id. */
  lemma {:induction false} ImportKnownRows(ps: seq<Payment>, next: int, account: Option<int>, accountNumber: string, rows: seq<StatementRow>, file: string)
    requires forall i :: 0 <= i < |rows| && Loaded(rows[i]) ==> HasFingerprint(ps, Fingerprint(accountNumber, rows[i]))
    ensures ImportRows(ps, next, account, accountNumber, rows, file) == (ps, next + LoadedRows(rows))
    decreases |rows|
  {
    if rows != [] {
      ImportKnownRows(ps, next, account, accountNumber, rows[..|rows| - 1], file);
    }
  }

  /**
    Loading the same statement twice leaves the table as the first load left it; the second
    load only moves the id sequence on by one per loaded row.
   */
  lemma ImportTwiceSameAsOnce(ps: seq<Payment>, next: int, account: Option<int>, accountNumber: string, rows: seq<StatementRow>, file: string)
    ensures var r := ImportRows(ps, next, account, accountNumber, rows, file);
      ImportRows(r.0, r.1, account, accountNumber, rows, file) == (r.0, r.1 + LoadedRows(rows))
  {
    var r := ImportRows(ps, next, account, accountNumber, rows, file);
    ImportRecordsRows(ps, next, account, accountNumber, rows, file);
    ImportKnownRows(r.0, r.1, account, accountNumber, rows, file);
  }

  /** Equal fingerprints mean equal fields whenever no field holds a '|'. */
  lemma SameFingerprintSameFields(accountNumber: string, a: StatementRow, b: StatementRow)
    requires a.amount.Some? && b.amount.Some?
    requires forall k :: 0 <= k < 7 ==> Excludes(FingerprintFields(accountNumber, a)[k], '|')
    requires forall k :: 0 <= k < 7 ==> Excludes(FingerprintFields(accountNumber, b)[k], '|')
    requires Fingerprint(accountNumber, a) == Fingerprint(accountNumber, b)
    ensures FingerprintFields(accountNumber, a) == FingerprintFields(accountNumber, b)
    ensures a.dateText == b.dateText && a.reference == b.reference && a.extReference == b.extReference
  {
    JoinWithInjective(FingerprintFields(accountNumber, a), FingerprintFields(accountNumber, b), '|');
    assert FingerprintFields(accountNumber, a)[2] == a.dateText;
    assert FingerprintFields(accountNumber, b)[2] == b.dateText;
  }

  /** Two rows that differ only in their concept are one payment: the second is ignored. */
  lemma ConceptNotFingerprinted(ps: seq<Payment>, next: int, account: Option<int>, accountNumber: string, a: StatementRow, file: string, concept: string)
    requires Loaded(a)
    ensures var r := ImportRows(ps, next, account, accountNumber, [a], file);
      ImportRows(ps, next, account, accountNumber, [a, a.(concept := concept)], file) == (r.0, r.1 + 1)
  {
    var b := a.(concept := concept);
    assert Fingerprint(accountNumber, b) == Fingerprint(accountNumber, a);
    assert [a, b][..1] == [a];
    assert [a][..0] == [];
    ImportRecordsRows(ps, next, account, accountNumber, [a], file);
  }

  /** Rows appended by an import are not MATCH, so which payments link which sale does not change. */
  lemma ImportKeepsLinkers(ps: seq<Payment>, next: int, nextSale: int, account: Option<int>, accountNumber: string, rows: seq<StatementRow>, file: string, saleId: int)
    requires PaymentsValid(ps, next, nextSale)
    ensures Linkers(ImportRows(ps, next, account, accountNumber, rows, file).0, saleId) == Linkers(ps, saleId)
  {
    var r := ImportRows(ps, next, account, accountNumber, rows, file);
    ImportKeeps(ps, next, nextSale, account, accountNumber, rows, file);
    forall j | 0 <= j < |ps|
      ensures r.0[j] == ps[j]
    {
      assert r.0[..|ps|][j] == r.0[j];
    }
  }

  /** Loading a statement keeps every PAGADO sale linked by exactly one MATCH payment and no other sale linked at all. */
  lemma ImportKeepsPaidIffLinked(sales: seq<Sale>, ps: seq<Payment>, next: int, nextSale: int, account: Option<int>, accountNumber: string, rows: seq<StatementRow>, file: string)
    requires PaymentsValid(ps, next, nextSale)
    requires PaidIffLinked(sales, ps)
    ensures PaidIffLinked(sales, ImportRows(ps, next, account, accountNumber, rows, file).0)
  {
    forall k | 0 <= k < |sales|
      ensures Linkers(ImportRows(ps, next, account, accountNumber, rows, file).0, sales[k].id) == Linkers(ps, sales[k].id)
    {
      ImportKeepsLinkers(ps, next, nextSale, account, accountNumber, rows, file, sales[k].id);
    }
  }

  // ---------------------------------------------------------------------------
  // The loop

  /** One more row of the statement is one more `ImportRow` and, when it is loaded, one more in the count. */
  lemma ImportStep(ps: seq<Payment>, next: int, account: Option<int>, accountNumber: string, rows: seq<StatementRow>, file: string, t: nat)
    requires t < |rows|
    ensures var mid := ImportRows(ps, next, account, accountNumber, rows[..t], file);
      ImportRows(ps, next, account, accountNumber, rows[..t + 1], file) == ImportRow(mid.0, mid.1, account, accountNumber, rows[t], file)
    ensures LoadedRows(rows[..t + 1]) == LoadedRows(rows[..t]) + if Loaded(rows[t]) then 1 else 0
  {
    assert rows[..t + 1][..t] == rows[..t];
  }

  /** The `INSERT OR IGNORE` of one row with date and amount. */
  method InsertRow(db: Db, account: Option<int>, accountNumber: string, row: StatementRow, file: string)
    requires row.amount.Some?
    modifies db
    ensures (db.payments, db.nextPaymentId) == InsertOrIgnore(old(db.payments), old(db.nextPaymentId), NewPayment(old(db.nextPaymentId), account, accountNumber, row, file))
    ensures db.sales == old(db.sales) && db.nextSaleId == old(db.nextSaleId)
  {
    var p := NewPayment(db.nextPaymentId, account, accountNumber, row, file);
    if !HasFingerprint(db.payments, p.fingerprint) {
      db.payments := db.payments + [p];
    }
    db.nextPaymentId := db.nextPaymentId + 1;
  }

  /**
    The statement loop of the upload page for a BBVA file: each row with date and amount is
    inserted or ignored, and the returned count is that of those rows.
    The commit and the reconciliation pass that follow are `UploadStatement`.
   */
  method ImportStatement(db: Db, account: Option<int>, accountNumber: string, rows: seq<StatementRow>, file: string) returns (inserted: nat)
    requires db.Valid()
    modifies db
    ensures db.Valid()
    ensures (db.payments, db.nextPaymentId) == ImportRows(old(db.payments), old(db.nextPaymentId), account, accountNumber, rows, file)
    ensures db.sales == old(db.sales) && db.nextSaleId == old(db.nextSaleId)
    ensures inserted == LoadedRows(rows)
  {
    inserted := 0;
    var t := 0;
    while t < |rows|
      invariant 0 <= t <= |rows|
      invariant db.sales == old(db.sales) && db.nextSaleId == old(db.nextSaleId)
      invariant (db.payments, db.nextPaymentId) == ImportRows(old(db.payments), old(db.nextPaymentId), account, accountNumber, rows[..t], file)
      invariant PaymentsValid(db.payments, db.nextPaymentId, db.nextSaleId)
      invariant inserted == LoadedRows(rows[..t])
    {
      var row := rows[t];
      ImportStep(old(db.payments), old(db.nextPaymentId), account, accountNumber, rows, file, t);
      ImportRowKeepsValid(db.payments, db.nextPaymentId, db.nextSaleId, account, accountNumber, row, file);
      ghost var step := ImportRow(db.payments, db.nextPaymentId, account, accountNumber, row, file);
      if row.opDay.Some? && row.amount.Some? && row.amount.value > 0 {
        InsertRow(db, account, accountNumber, row, file);
        inserted := inserted + 1;
      }
      assert (db.payments, db.nextPaymentId) == step;
      t := t + 1;
    }
    assert rows[..t] == rows;
  }

  /**
    The upload page for a BBVA file: the statement loop, the commit, then the reconciliation
    pass over the enlarged payment table.
   */
  method UploadStatement(db: Db, account: Option<int>, accountNumber: string, rows: seq<StatementRow>, file: string, now: int)
    returns (inserted: nat, matches: nat)
    requires db.Valid()
    modifies db
    ensures db.Valid()
    ensures inserted == LoadedRows(rows)
    ensures PassState(db.sales, db.payments, matches) ==
      Conciliate(old(db.sales), ImportRows(old(db.payments), old(db.nextPaymentId), account, accountNumber, rows, file).0, now)
    ensures db.nextPaymentId == ImportRows(old(db.payments), old(db.nextPaymentId), account, accountNumber, rows, file).1
  {
    inserted := ImportStatement(db, account, accountNumber, rows, file);
    matches := RunConciliacion(db, now);
  }
}
