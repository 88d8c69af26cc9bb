# Payment reconciliation: a Dafny model

This project models the core of a small sales back office in which bank payments
(`pagos_detectados`) are matched against sales (`ventas`).

At its centre is the automatic reconciliation pass `run_conciliacion`:
- It visits every PENDIENTE payment in (operation date, id) order.
- For each payment it collects the candidate sales: same bank account, not PAGADO, same amount.
- It then decides one of three outcomes:
  - leave the payment PENDIENTE when there is no candidate;
  - match the payment when there is exactly one candidate;
  - otherwise score every candidate and either match the clear winner or mark the payment REVISAR.
- A match is a dual transition: the payment becomes MATCH, linked to the sale, and the sale becomes PAGADO.

Around the pass sit the operations of the web application that touch the same two tables:
- the candidate list and the two manual-link actions of the payment page;
- the quick-sale page, which groups selected invoices per client into new sales, writes a note listing the invoices, and then runs the pass;
- the three readers of that note;
- the PAGADO guards of the sale edit and delete pages;
- the fingerprint-deduplicated statement import;
- the receipt file-name whitelist.

Units:
- Money is integer cents (`ABS(a - b) < 0.01` is equality).
- An operation date is a day number; a creation time is in seconds.
- Every score contribution is a multiple of 5, so scores are naturals and `second >= 0.7 * best` is `10 * second >= 7 * best`.

The database is `Records.Db`, a class with the two tables as sequences and the next ids.

Each page action is a method on it. Each method is proved equal to a function on the tables:
- `Conciliate` for the pass;
- `ManualLinkPost` for the payment page;
- `QuickSalePlan` for the quick sale;
- `EditSale` and `DeleteSale` for the guards;
- `ImportRows` for the statement import.

Lemmas about those functions then state what the source promises.

The invariant every operation is checked against is `Records.PaidIffLinked`: a sale is PAGADO exactly when one MATCH payment links it, and otherwise no payment links it.

Modules:
- `Text`: Python's `strip`, `lower`, `split`, `splitlines`, `in` on ASCII strings.
- `Decimals`: `float()`, `int()` and `:.2f` on the decimal texts the program produces.
- `Sorting`: an insertion sort used for the `ORDER BY`s, proved stable.
- `Records`, `Conciliacion`, `ManualLink`, `QuickSale`, `SaleNote`, `SaleEdit`, `Ingest`, `Receipts`: the operations.

Where the code and its design description differ, the model follows the code:
- The day band of the score uses the absolute day difference. A payment dated before the sale scores like one dated after it.
- REVISAR sales are candidates of the automatic pass, since the query only excludes PAGADO. The payment page's `obtener_candidatos` offers only PENDIENTE and EN_ESPERA_CONCILIACION sales.
- The manual link by folio does not require the sale to be open. See "## Findings".

## Model

| member | source | states |
|---|---|---|
| Conciliacion.FolioPoints | modules/conciliacion.py:30-42 | 70 exactly when the trimmed, lower-cased folio is non-empty and occurs in the lower-cased "ref ref_amp concepto" text, verbatim or with hyphens and spaces removed from both; 0 otherwise, and always 0 for an empty folio |
| Conciliacion.HyphenFolioAlwaysRecognised | modules/conciliacion.py:36-42 | a folio made only of hyphens and spaces is always recognised, because it squashes to the empty text |
| Conciliacion.DayPoints | modules/conciliacion.py:44-60 | 20 for the same day, 10 for one day apart, 5 for two or three days apart, 0 beyond, in either direction |
| Conciliacion.FreshPoints | modules/conciliacion.py:62-71 | with the payment at midnight of its day: 10 for a sale created 0 to 4 hours earlier, 5 for more than 4 and up to 24 hours earlier, 0 for a sale created after that midnight |
| Conciliacion.Score | modules/conciliacion.py:22-77 | the score is at most 115; it is at least 70 when the folio is recognised and at most 45 when it is not |
| Conciliacion.ScoreInFives | modules/conciliacion.py:28-77 | every score is a multiple of 5 |
| Conciliacion.AwaitingBonus | modules/conciliacion.py:73-75 | an EN_ESPERA_CONCILIACION sale scores exactly 15 more than the same sale in any other status |
| Conciliacion.UndatedScore | modules/conciliacion.py:44-71 | without a readable payment date or sale creation time there are no day or freshness points: the score is the folio points plus the awaiting bonus |
| Conciliacion.TopScoreReached | modules/conciliacion.py:28-77 | the bound 115 is reached: a recognised folio, a sale created at the payment day's midnight, EN_ESPERA_CONCILIACION |
| Conciliacion.CandidatesOf | modules/conciliacion.py:109-129 | the candidates, in table order, are exactly the sales with the payment's account, not PAGADO, and the payment's amount; there are none when the payment has no account or no amount |
| Conciliacion.TopTwoUnique | modules/conciliacion.py:163-171 | the stable descending sort's first entry (the first candidate with the highest score) and the runner-up score are determined uniquely |
| Conciliacion.Decide | modules/conciliacion.py:131-223 | no candidate leaves the payment; a single candidate is matched without scoring; a match is always one of the candidates |
| Conciliacion.ChooseOutcome | modules/conciliacion.py:163-223 | with two or more candidates, the i-th is matched exactly when its score is at least 20 and every other score is below 70% of it; when no candidate is such a clear winner the payment becomes REVISAR |
| Conciliacion.SeveralCandidatesOutcome | modules/conciliacion.py:163-223 | the same rule stated for the candidates of a payment |
| Conciliacion.TieAtTopIsReview | modules/conciliacion.py:187-200 | a tie at the top score always ends in REVISAR |
| Conciliacion.FolioDominance | modules/conciliacion.py:163-223 | among several candidates, the only one whose folio the payment mentions is matched |
| Conciliacion.DecideIsSound | modules/conciliacion.py:109-223 | the decision only skips a payment without candidates and only matches a candidate |
| Conciliacion.PendingOrder | modules/conciliacion.py:96-104 | the pass visits exactly the PENDIENTE payments, each once, sorted by operation date then id |
| Conciliacion.RunOutcome | modules/conciliacion.py:108-223 | each visited payment ends unchanged, REVISAR, or MATCH linked to a sale; one without account or amount is unchanged |
| Conciliacion.RunCount | modules/conciliacion.py:106-223 | the counter grows by the number of payments the pass moves from PENDIENTE to MATCH |
| Conciliacion.ConciliateShape | modules/conciliacion.py:96-227 | the pass only adds PAGADO sales, leaves MATCH and REVISAR payments and payments without account or amount as they were, and returns the number of payments it matched |
| Conciliacion.ConciliateLinks | modules/conciliacion.py:118-223 | each payment matched by the pass links a sale that was not PAGADO before and is after, with the payment's account and amount, and no two link the same sale |
| Conciliacion.NoCandidatesStay | modules/conciliacion.py:118-133 | a payment without candidates has none after any number of sales become PAGADO |
| Conciliacion.ConciliateSettles | modules/conciliacion.py:96-227 | after a pass no PENDIENTE payment has a candidate left |
| Conciliacion.RerunChangesNothing | modules/conciliacion.py:96-227 | running the pass again at once matches nothing and changes nothing |
| Conciliacion.ConciliateKeepsPaidIffLinked | modules/conciliacion.py:140-221 | the pass keeps every PAGADO sale linked by exactly one MATCH payment and every other sale unlinked |
| Conciliacion.ScoreCandidates | modules/conciliacion.py:163-166 | the scoring loop computes the score of every candidate, in order |
| Conciliacion.DecidePayment | modules/conciliacion.py:109-200 | the per-payment branches decide what `Decide` decides |
| Conciliacion.RunConciliacion | modules/conciliacion.py:80-227 | the loop over the pending payments leaves the tables and returns the count that `Conciliate` gives |
| ManualLink.OfferedNewestFirst | app.py:1245-1256 | the offered sales are exactly those with the payment's account, PENDIENTE or EN_ESPERA_CONCILIACION, and the payment's amount, sorted newest first, sales created at the same time in table order |
| ManualLink.ManualCandidatesSpec | app.py:1242-1257 | at most 30 sales are offered, newest first with ties in table order, and any offered sale that is left out is no newer than every sale listed |
| ManualLink.PageCandidates | app.py:1396-1401 | a payment already linked to a sale is offered nothing; an unlinked one gets the list above, at most 30 open sales with its account and amount |
| ManualLink.NothingOfferedWithoutAccountOrAmount | app.py:1243-1244 | a payment without account or amount is offered nothing |
| ManualLink.Link | app.py:1287-1299 | the dual update: the payment becomes MATCH linked to the sale and keeps every other field, the sale becomes PAGADO with the new change time and keeps every other field, and no other row changes |
| ManualLink.LinkById | app.py:1261-1301 | with sale ids increasing, the payment is linked exactly when it exists, the id text reads as an integer and a PENDIENTE or EN_ESPERA_CONCILIACION sale has that id, and then to that sale; an id that does not read and a sale missing or not open give their own errors and change nothing |
| ManualLink.LinkByFolio | app.py:1302-1340 | the payment is linked exactly when it exists, the folio is non-empty and some sale has exactly that folio, and then to the first such sale whatever its status; an empty or unknown folio gives its own error and changes nothing |
| ManualLink.ManualLinkPost | app.py:1259-1340 | with sale ids increasing, a link happens exactly when the payment exists and either the given id reads as the id of an open sale, or no id is given and some sale has the typed folio; the linked sale is the one with that id, or the first with that folio; otherwise nothing changes |
| ManualLink.LinkByIdKeepsPaidIffLinked | app.py:1263-1301 | the link by id of a payment that is not MATCH keeps PAGADO-iff-linked |
| ManualLink.PostManualLink | app.py:1259-1340 | the POST on the database does what `ManualLinkPost` says |
| ManualLink.FolioLinkToPaidSale | app.py:1304-1340 | the folio link gives an already PAGADO sale a second MATCH payment |
| ManualLink.RelinkOrphansSale | app.py:1263-1301 | linking a MATCH payment again leaves its first sale PAGADO with no payment |
| ManualLink.GuardedLink | app.py:1259-1340 | the corrected link refuses exactly the MATCH payments; otherwise it links exactly when the id names an open sale, or, with no id, some open sale has the folio, and then links that sale or the first open one with the folio |
| ManualLink.GuardedLinkKeepsPaidIffLinked | app.py:1259-1340 | the corrected link always keeps PAGADO-iff-linked |
| ManualLink.GuardedAgreesById | app.py:1263-1301 | for a payment that is not MATCH, the corrected link by id is the written one |
| ManualLink.GuardedRefusesUnsafeFolio | app.py:1304-1340 | the corrected link refuses both unsafe cases of the written folio link |
| Receipts.AllowedReceiptIff | app.py:20-26 | a file name is accepted exactly when it contains a '.' and the lower-cased text after its last '.' is png, jpg, jpeg or pdf |
| Receipts.EarlierExtensionIgnored | app.py:22-26 | an allowed extension before the last point does not help: "archivo.pdf.exe" is refused |
| Receipts.AcceptedExamples | app.py:22-26 | the extension is compared ignoring case and only the last one counts: "comprobante.PDF" and "foto.final.jpeg" are accepted |
| Receipts.NoExtensionRefused | app.py:23-24 | "pdf" and "archivo." are refused |
| SaleNote.ParseLine | app.py:1371-1395 | only a stripped line starting with "Doc " yields a detail |
| SaleNote.ParseAmounts | app.py:1378-1391 | without "(original" the original amount is the edited one |
| SaleNote.ParseNote | app.py:1364-1395 | a note without "Venta rápida" yields nothing, and there are never more details than lines |
| SaleNote.PagesAgree | app.py:1362-1366 | for a payment linked to a sale, the payment page shows the same details as the sale page shows for that note |
| SaleNote.WrittenNoteOnEveryPage | app.py:533-564 | a written quick-sale note shows its invoices on the sale page and on the page of a linked payment, and nothing on an unlinked payment's page |
| SaleNote.HeaderSkipped | app.py:1371-1375 | the note's "Venta rápida." and "Cliente:" lines yield no detail |
| SaleNote.ParseDetailLine | app.py:1371-1395 | a written "Doc ..." line parses back to its document and its two amounts at cent precision |
| SaleNote.NoteLines | app.py:1092-1096 | a note with clean documents and a one-line client splits into its header lines and one line per invoice |
| SaleNote.ParseWriteNote | app.py:1364-1395 | reading a written note gives back every invoice's document, edited and original amount, in order |
| Decimals.ParseFloatFormatCents | app.py:1384-1391 | `float()` of a `:.2f` text gives back the cents |
| Decimals.DecimalCentsFormat | app.py:1384-1391 | the cents read back from a `:.2f` text are the cents written |
| Decimals.ParseIntegerNat | app.py:1264 | `int()` reads back a written natural |
| Decimals.ParseIntegerNegative | app.py:1061-1062 | `int()` reads back a written negative number |
| QuickSale.PyIndex | app.py:1062 | Python list indexing: a negative index counts from the end, and out of range is an error |
| QuickSale.ChargedFormattedCents | app.py:1063-1068 | an edit field holding a two-decimal text charges exactly the cents written there, whatever the invoice's net |
| QuickSale.SelectAll | app.py:1060-1075 | the selection is read exactly when every selected index reads, and then the i-th line is the client and invoice line of the i-th index; otherwise the failure is a bad index |
| QuickSale.ClientsOf | app.py:1057-1075 | the clients, in order of first appearance, are distinct and are exactly those of the selected invoices |
| QuickSale.GroupByFirstAppearance | app.py:1057-1080 | the `defaultdict` grouping has one group per client in order of first appearance, holding exactly that client's lines in selection order |
| QuickSale.SelectAndGroup | app.py:1060-1075 | the selection loop gives the grouping of `SelectAll`, or its error |
| QuickSale.FolioCode | app.py:1087-1088 | the code is "VR" for an empty client; it fails exactly for a client of only whitespace; it never holds a hyphen |
| QuickSale.FolioCodeOfFirstWord | app.py:1087-1088 | for every client with a word, the code is its first word with the hyphens removed, whatever whitespace precedes it and whatever follows it |
| QuickSale.FolioCodeEmptyOrBlank | app.py:1087 | "" gives "VR" and "   " fails |
| QuickSale.FolioCodeFirstWord | app.py:1087 | "ACME SA" gives "ACME" |
| QuickSale.FolioCodeDropsHyphens | app.py:1088 | "A-B C" gives "AB" |
| QuickSale.PlanSucceedsIff | app.py:1080-1117 | the inserts succeed exactly when every client whose total is positive has a usable folio code |
| QuickSale.PlanCovers | app.py:1080-1117 | one sale is planned per client whose total is positive, in order, under that client's folio code |
| QuickSale.QuickSalePlan | app.py:1039-1053 | a missing seller or account, missing invoices or an empty selection each fail with their own message |
| QuickSale.CreatedSalesShape | app.py:1098-1117 | every created sale is PENDIENTE with a positive amount, the form's account and seller, the creation time, and the next ids in turn |
| QuickSale.CreatedSalesPerClient | app.py:1077-1117 | each created sale is one selected client's, charges the sum of that client's edited amounts, and carries all of that client's lines in its note; no two are for the same client |
| QuickSale.CreatedNoteReadsBack | app.py:1092-1096 | the note of a created sale reads back as its client's invoices when their documents are clean |
| QuickSale.QuickSaleKeepsPaidIffLinked | app.py:1098-1128 | inserting the planned sales and running the pass keeps PAGADO-iff-linked |
| QuickSale.PlanInserts | app.py:1080-1117 | the insert loop writes the planned rows, or stops with the error that aborts the request |
| QuickSale.InsertPlanned | app.py:1080-1119 | the inserts are committed all together or not at all |
| QuickSale.CreateQuickSales | app.py:1034-1128 | on an error nothing is written; otherwise `creadas` is the number of sales inserted and the tables are those the pass leaves after the inserts |
| SaleEdit.FormErrors | app.py:334-356 | the form is valid exactly when folio, client and amount are present, the amount reads as a number, and an account is chosen |
| SaleEdit.Edited | app.py:357-380 | the update writes the form's fields and the change time and keeps id, seller, status and creation time |
| SaleEdit.EditSale | app.py:303-380 | a sale that is not the seller's is not found; a PAGADO sale is refused; an invalid form gives its errors; only a valid form on an unpaid sale updates it |
| SaleEdit.PaidSaleNeverEdited | app.py:316-318 | a PAGADO sale is never changed by the edit page |
| SaleEdit.EditKeepsPaidIffLinked | app.py:357-380 | editing keeps PAGADO-iff-linked |
| SaleEdit.DeleteSale | app.py:409-426 | the delete removes the seller's sale only when it is not PAGADO |
| SaleEdit.DeletedSaleUnlinked | app.py:421-426 | a sale that may be deleted has no MATCH payment linking it |
| SaleEdit.PaidSaleNeverDeleted | app.py:421-422 | a PAGADO sale is never deleted |
| SaleEdit.DeleteKeepsPaidIffLinked | app.py:424-426 | deleting keeps PAGADO-iff-linked for the remaining sales |
| SaleEdit.PostEditSale | app.py:298-380 | the edit POST on the database does what `EditSale` says |
| SaleEdit.PostDeleteSale | app.py:404-426 | the delete on the database does what `DeleteSale` says |
| Ingest.InsertOrIgnore | app.py:689-710 | after the insert the fingerprint is in the table; the existing rows are kept and at most one row is added; a fingerprint already present adds nothing; fingerprints stay unique; the AUTOINCREMENT id is spent whether or not the row is inserted |
| Ingest.ImportKeeps | app.py:667-711 | an import keeps ids increasing and fingerprints unique, never changes an existing row, only appends PENDIENTE payments linked to no sale, and moves the id sequence on by one per row with date and positive amount |
| Ingest.ImportRecordsRows | app.py:667-711 | after an import, every row with date and amount has its fingerprint in the table |
| Ingest.ImportTwiceSameAsOnce | app.py:686-711 | loading the same statement twice leaves the table as one load does; the second load only spends one id per loaded row |
| Ingest.SameFingerprintSameFields | app.py:686 | equal fingerprints mean equal fields, when no field holds a '\|' |
| Ingest.ConceptNotFingerprinted | app.py:686 | two BBVA rows that differ only in their concept are one payment: the second adds no row |
| Ingest.ImportKeepsPaidIffLinked | app.py:689-711 | loading a statement keeps PAGADO-iff-linked |
| Ingest.ImportStatement | app.py:643-711 | the loop inserts or ignores each row with a date and a positive amount, and `insertados` counts those rows, inserted or not |
| Ingest.UploadStatement | app.py:891-898 | after the statement loop and the commit, the reconciliation pass runs over the enlarged payment table |
| Records.Db.constructor | init_db.py:27-66 | an empty database is valid |

## Left out

- Flask routing, sessions, login and roles, templates, flash messages and HTTP responses: these are not part of this model. Each page action is a method with its form fields as parameters.
- SQLite: connections and the missing column checks are left out. Tables are sequences in rowid (id) order. The candidate query has no ORDER BY, so its order is taken to be table order. Ties in `ORDER BY fecha_creacion DESC` keep table order. A commit is all or nothing.
- The date and time parsers (`strptime`) are not modelled. An operation date is an optional day number, where None means it does not parse. A creation time is optional seconds.
- Conciliacion.PendingOrder: puts payments without a readable date first, whereas SQLite orders them by their text.
- The clock is a parameter `now` (seconds). The quick-sale folio stamp is a string parameter.
- QuickSale.CreateQuickSales: uses one stamp for every folio of a request, whereas the source reads the clock for each sale.
- SHA-256 is not modelled. The fingerprint is the `|`-joined text the source hashes, taken to be one-to-one.
- Python `float()` is modelled for decimal texts `[+-]digits[.digits]`. Exponents, `inf`, `nan` and underscores are not modelled. A text left unread this way falls back to the invoice's net, as a `float()` error does.
- Floats as amounts are not modelled. Amounts are integer cents, and a posted amount is floored to cents.
- Python `int()` with underscores between digits is not modelled.
- `lower()` and `isspace()` are modelled for ASCII only.
- Statement reading with pandas is not modelled: column discovery, Excel serial-date conversion and the account lookup. The rows arrive already read, with the date as a day and as ISO text. Only the BBVA import is modelled.
- `json.loads` of `facturas_json` is not modelled: the invoices arrive parsed. A missing key in an invoice is not modelled.
- Exceptions raised inside the `run_conciliacion` call that follows a quick sale or a statement upload are swallowed by the source. The model's pass always completes.
- The upload page returns before it reports `insertados`, so the count is never shown. The model returns it from `Ingest.UploadStatement` all the same.
- Ingest.Loaded: an `Abono` above 0 but below one cent is floored to 0 cents and so dropped, whereas the source keeps it.
- ManualLink.OfferedNewestFirst: puts sales without a readable creation time last, as NULL sorts in a descending SQLite sort; a creation text that does not parse is ordered by its text there.
- QuickSale.CreateQuickSales: an error the source would raise mid-request (a bad index, or a client of only whitespace) is modelled as nothing written, which is what the uncommitted transaction leaves.
- The sale page's `cliente_pago` action, receipt file storage, CSV export and daily-close aggregation are reporting and file plumbing outside this model. Only the daily close's note parser is modelled, as `SaleNote.ParseNote`, which it shares line for line.
- SaleEdit.EditSale: the sale edit page finds a sale through a JOIN with `cuentas_bancarias`. A sale whose account row is missing is "not found" there, and the model does not capture that.
- The Banamex and Banorte imports (app.py:713-887) are not modelled, and their fingerprints differ from BBVA's. They hash the account id rather than the account number. They include the concept, so `Ingest.ConceptNotFingerprinted` does not hold for them. They leave out the extended reference and always write `None` for the balance. They have no `> 0` filter, only dropping empty and "-" deposits, so a zero deposit is inserted.
- The older engine in `modules/conciliacion copy.py` is not modelled. It has no single-candidate shortcut and takes only PENDIENTE and EN_ESPERA_CONCILIACION sales as candidates.

## Findings

| source | as written | input that shows it | evidently intended | confidence | as-written member | corrected member |
|---|---|---|---|---|---|---|
| app.py:1304-1340 | the folio link takes the first sale with the folio and updates it, whatever its status | a sale F-1 already PAGADO and linked by payment 1; a PENDIENTE payment 2 linked by folio "F-1" | only a PENDIENTE or EN_ESPERA_CONCILIACION sale may be linked, as in the link by id | not executed | ManualLink.FolioLinkToPaidSale | ManualLink.GuardedLink |
| app.py:1263-1301 | neither link checks the payment status, so a MATCH payment can be linked again | payment 1 MATCH to the PAGADO sale F-1, then linked by id to the PENDIENTE sale F-2: F-1 stays PAGADO with no payment | a payment already MATCH is not linked again | not executed | ManualLink.RelinkOrphansSale | ManualLink.GuardedLink |

`ManualLink.GuardedLinkKeepsPaidIffLinked` proves that the corrected link keeps PAGADO-iff-linked for every input. `ManualLink.GuardedAgreesById` shows it agrees with the written link by id whenever the payment is not MATCH.
