/**
  The reconciliation engine of modules/conciliacion.py: the compatibility score of a
  payment and a sale, the candidate query, the per-payment decision and the batch pass
  that walks every PENDIENTE payment and moves it to MATCH (linking a sale that becomes
  PAGADO) or to REVISAR, or leaves it alone.

  The pass is specified as a fold (`Run`) of one step per payment over the order the
  pending-payments query returns; `RunConciliacion` is the loop over the database, proved
  equal to that fold, and the lemmas below state what the fold guarantees.
 */
module Conciliacion {
  import opened Wrappers
  import opened Text
  import opened Records
  import opened Sorting

  // ===========================================================================
  // Scoring: _score_candidate


  /** `(x or "")` on a nullable text column. */
  function OrEmpty(s: Option<string>): string {
    if s.Some? then s.value else ""
  }

  /** `f"{ref} {ref_amp} {concepto}"`, each part lower-cased. */
  function PaymentText(p: Payment): string {
    Lower(OrEmpty(p.reference)) + " " + Lower(OrEmpty(p.extReference)) + " " + Lower(OrEmpty(p.concept))
  }

  /** A text with its hyphens and spaces removed. */
  function Squash(s: string): string {
    RemoveChars(s, {'-', ' '})
  }

  /**
    The folio signal: the trimmed, lower-cased folio is not empty and occurs in the payment
    text, either verbatim or once hyphens and spaces are removed from both.
   */
  predicate FolioRecognised(folio: string, p: Payment) {
    var f := Lower(Strip(folio));
    f != [] && (Contains(PaymentText(p), f) || Contains(Squash(PaymentText(p)), Squash(f)))
  }

  function FolioPoints(folio: string, p: Payment): (r: nat)
    ensures r == 0 || r == 70
    ensures r == 70 <==> FolioRecognised(folio, p)
    ensures Strip(folio) == [] ==> r == 0
  {
    if FolioRecognised(folio, p) then 70 else 0
  }

  /** The calendar day of a timestamp (`datetime.date()`). */
  function DayOf(t: int): int {
    t / 86400
  }

  /** The day band: it depends on the distance between the two days only, not on which is first. */
  function DayPoints(payDay: int, saleDay: int): (r: nat)
    ensures r == 0 || r == 5 || r == 10 || r == 20
    ensures r == 20 <==> payDay == saleDay
    ensures r == 10 <==> payDay == saleDay + 1 || saleDay == payDay + 1
    ensures r == 5 <==> 2 <= payDay - saleDay <= 3 || 2 <= saleDay - payDay <= 3
    ensures r == 0 <==> payDay - saleDay > 3 || saleDay - payDay > 3
  {
    var d := if payDay >= saleDay then payDay - saleDay else saleDay - payDay;
    if d == 0 then 20 else if d == 1 then 10 else if d <= 3 then 5 else 0
  }

  /**
    The freshness band, with the payment placed at midnight of its operation day:
    a sale 0-4 hours older scores 10, one more than 4 and at most 24 hours older scores 5,
    a sale created after that midnight or more than a day before scores nothing.
   */
  function FreshPoints(payDay: int, created: int): (r: nat)
    ensures r == 0 || r == 5 || r == 10
    ensures r == 10 <==> 0 <= payDay * 86400 - created <= 14400
    ensures r == 5 <==> 14400 < payDay * 86400 - created <= 86400
    ensures created > payDay * 86400 ==> r == 0
  {
    var diff := payDay * 86400 - created;
    if 0 <= diff <= 14400 then 10
    else if 0 <= diff <= 86400 then 5
    else 0
  }

  /** The additive compatibility score of a payment and a sale. */
  function Score(p: Payment, s: Sale): (r: nat)
    ensures r <= 115
    ensures FolioRecognised(s.folio, p) ==> r >= 70
    ensures !FolioRecognised(s.folio, p) ==> r <= 45
  {
    var dated := p.opDay.Some? && s.created.Some?;
    var folio := FolioPoints(s.folio, p);
    var day := if dated then DayPoints(p.opDay.value, DayOf(s.created.value)) else 0;
    var recent := if dated then FreshPoints(p.opDay.value, s.created.value) else 0;
    var awaiting := if s.status == SaleAwaiting then 15 else 0;
    folio + day + recent + awaiting
  }

  /** Every band is a multiple of five points, and so is the score. */
  lemma ScoreInFives(p: Payment, s: Sale)
    ensures Score(p, s) % 5 == 0
  {
    var dated := p.opDay.Some? && s.created.Some?;
    var folio := FolioPoints(s.folio, p);
    var day := if dated then DayPoints(p.opDay.value, DayOf(s.created.value)) else 0;
    var recent := if dated then FreshPoints(p.opDay.value, s.created.value) else 0;
    var awaiting := if s.status == SaleAwaiting then 15 else 0;
    assert Score(p, s) == folio + day + recent + awaiting;
    FivesSum(folio, day, recent, awaiting);
  }

  /** An EN_ESPERA_CONCILIACION sale scores 15 more than the same sale in any other status. */
  lemma AwaitingBonus(p: Payment, s: Sale, other: SaleStatus)
    requires other != SaleAwaiting
    ensures Score(p, s.(status := SaleAwaiting)) == Score(p, s.(status := other)) + 15
  {
  }

  /** Without a readable payment date or sale creation time, only the folio and the status score. */
  lemma UndatedScore(p: Payment, s: Sale)
    requires p.opDay.None? || s.created.None?
    ensures Score(p, s) == FolioPoints(s.folio, p) + if s.status == SaleAwaiting then 15 else 0
  {
  }

  /** The bound 115 is reached: folio in the reference, created at the payment's midnight, awaiting. */
  lemma TopScoreReached()
    ensures var p := Payment(1, "BBVA", Some(1), Some(1), Some(100), Some("f1"), None, None, None, "", "h", PaymentPending, None);
      var s := Sale(1, "F1", "Cliente", 100, 1, 1, SaleAwaiting, Some(86400), 0, "");
      Score(p, s) == 115
  {
    var p := Payment(1, "BBVA", Some(1), Some(1), Some(100), Some("f1"), None, None, None, "", "h", PaymentPending, None);
    StripKeeps("F1");
    assert Lower("F1") == "f1";
    assert PaymentText(p) == "f1" + " " + "" + " " + "";
    assert OccursAt(PaymentText(p), "f1", 0);
    OccursContains(PaymentText(p), "f1", 0);
    assert FolioRecognised("F1", p);
  }

  lemma FivesSum(a: nat, b: nat, c: nat, d: nat)
    requires a == 0 || a == 70
    requires b == 0 || b == 5 || b == 10 || b == 20
    requires c == 0 || c == 5 || c == 10
    requires d == 0 || d == 15
    ensures (a + b + c + d) % 5 == 0
  {
  }

  /** A folio made of nothing but hyphens and spaces is recognised in every payment. */
  lemma HyphenFolioAlwaysRecognised(folio: string, p: Payment)
    requires Strip(folio) != []
    requires forall i :: 0 <= i < |Strip(folio)| ==> Strip(folio)[i] in {'-', ' '}
    ensures FolioRecognised(folio, p)
  {
    var f := Lower(Strip(folio));
    assert forall i :: 0 <= i < |f| ==> f[i] in {'-', ' '};
    SquashAllSeparators(f);
    ContainsEmpty(Squash(PaymentText(p)));
  }

  lemma {:induction false} SquashAllSeparators(s: string)
    requires forall i :: 0 <= i < |s| ==> s[i] in {'-', ' '}
    ensures Squash(s) == []
  {
    if s != [] {
      SquashAllSeparators(s[1..]);
    }
  }

  // ===========================================================================
  // The candidate query

  /** The WHERE clause: same account, not PAGADO, amount equal to the cent. */
  predicate IsCandidate(s: Sale, account: int, amount: int) {
    s.account == account && s.status != SalePaid && s.amount == amount
  }

  /** The matching rows among the first `n`, in table order. */
  function CandidatesUpTo(sales: seq<Sale>, account: int, amount: int, n: nat): (r: seq<nat>)
    requires n <= |sales|
    ensures forall t :: 0 <= t < |r| ==> r[t] < n
    ensures forall t, u :: 0 <= t < u < |r| ==> r[t] < r[u]
    ensures forall k: nat :: k in r <==> k < n && IsCandidate(sales[k], account, amount)
  {
    if n == 0 then []
    else CandidatesUpTo(sales, account, amount, n - 1) + (if IsCandidate(sales[n - 1], account, amount) then [n - 1] else [])
  }

  /** The candidate sales of a payment; none at all when its account or amount is NULL. */
  function CandidatesOf(sales: seq<Sale>, p: Payment): (r: seq<nat>)
    ensures forall t :: 0 <= t < |r| ==> r[t] < |sales|
    ensures forall t, u :: 0 <= t < u < |r| ==> r[t] < r[u]
    ensures forall k: nat :: k in r <==> k < |sales| && p.account.Some? && p.amount.Some? && IsCandidate(sales[k], p.account.value, p.amount.value)
  {
    if p.account.None? || p.amount.None? then [] else CandidatesUpTo(sales, p.account.value, p.amount.value, |sales|)
  }

  // ===========================================================================
  // Ranking: the head of `scored` sorted by score, descending and stable

  /**
    `pos` is the first position holding the largest score `best`, and `second` is the largest
    score at any other position: what a stable descending sort puts at positions 0 and 1.
   */
  predicate IsTopTwo(s: seq<nat>, pos: nat, best: nat, second: nat) {
    && pos < |s| && s[pos] == best
    && (forall j :: 0 <= j < |s| ==> s[j] <= best)
    && (forall j :: 0 <= j < pos ==> s[j] < best)
    && (forall j :: 0 <= j < |s| && j != pos ==> s[j] <= second)
    && (exists j :: 0 <= j < |s| && j != pos && s[j] == second)
  }

  function TopTwo(s: seq<nat>): (r: (nat, nat, nat))
    requires |s| >= 2
    ensures IsTopTwo(s, r.0, r.1, r.2)
    decreases |s|
  {
    if |s| == 2 then
      if s[1] > s[0] then (1, s[1], s[0]) else (0, s[0], s[1])
    else
      var prefix := s[..|s| - 1];
      var r := TopTwo(prefix);
      var x := s[|s| - 1];
      assert forall j :: 0 <= j < |s| - 1 ==> s[j] == prefix[j];
      if x > r.1 then (|s| - 1, x, r.1)
      else if x > r.2 then (r.0, r.1, x)
      else r
  }

  /** The top-two description has one solution. */
  lemma TopTwoUnique(s: seq<nat>, pos: nat, best: nat, second: nat, pos': nat, best': nat, second': nat)
    requires IsTopTwo(s, pos, best, second) && IsTopTwo(s, pos', best', second')
    ensures pos == pos' && best == best' && second == second'
  {
    var j :| 0 <= j < |s| && j != pos && s[j] == second;
    var j' :| 0 <= j' < |s| && j' != pos' && s[j'] == second';
  }

  // ===========================================================================
  // The decision for one payment

  /** What the pass does with one pending payment. */
  datatype Decision = Skip | Review | MatchTo(sale: nat)

  const MinAutoScore: nat := 20

  /** `second >= 0.7 * best`, in integers. */
  predicate Ambiguous(best: nat, second: nat) {
    10 * second >= 7 * best
  }

  /** The score of each candidate, in candidate order. */
  function Scores(p: Payment, sales: seq<Sale>, cands: seq<nat>): (r: seq<nat>)
    requires forall t :: 0 <= t < |cands| ==> cands[t] < |sales|
    ensures |r| == |cands|
    ensures forall t :: 0 <= t < |cands| ==> r[t] == Score(p, sales[cands[t]])
  {
    seq(|cands|, t requires 0 <= t < |cands| => Score(p, sales[cands[t]]))
  }

  /**
    The choice among candidates with the given scores. None: leave the payment. One: take it
    without looking at the score. Several: REVISAR when the best score is below 20 or the
    runner-up reaches 70% of it, otherwise the (first) best.
   */
  function Choose(c: seq<nat>, scores: seq<nat>): (d: Decision)
    requires |scores| == |c|
    ensures d.Skip? <==> c == []
    ensures |c| == 1 ==> d == MatchTo(c[0])
    ensures d.MatchTo? ==> d.sale in c
  {
    if |c| == 0 then Skip
    else if |c| == 1 then MatchTo(c[0])
    else
      var r := TopTwo(scores);
      if r.1 < MinAutoScore then Review
      else if Ambiguous(r.1, r.2) then Review
      else MatchTo(c[r.0])
  }

  /** The decision the pass takes for payment `p` against the current sales. */
  function Decide(sales: seq<Sale>, p: Payment): (d: Decision)
    ensures d.Skip? <==> CandidatesOf(sales, p) == []
    ensures |CandidatesOf(sales, p)| == 1 ==> d == MatchTo(CandidatesOf(sales, p)[0])
    ensures d.MatchTo? ==> d.sale in CandidatesOf(sales, p)
  {
    var c := CandidatesOf(sales, p);
    Choose(c, Scores(p, sales, c))
  }

  /** Position `i` scores at least 20 and every other position stays below 70% of it. */
  predicate ClearWinner(scores: seq<nat>, i: int) {
    && 0 <= i < |scores|
    && scores[i] >= MinAutoScore
    && forall j :: 0 <= j < |scores| && j != i ==> !Ambiguous(scores[i], scores[j])
  }

  /**
    With two or more candidates the choice is a candidate exactly when that candidate is a
    clear winner, and REVISAR exactly when there is none.
   */
  lemma ChooseOutcome(c: seq<nat>, scores: seq<nat>)
    requires |c| == |scores| >= 2
    requires Distinct(c)
    ensures forall i :: 0 <= i < |c| ==> (Choose(c, scores) == MatchTo(c[i]) <==> ClearWinner(scores, i))
    ensures Choose(c, scores).Review? <==> forall i :: 0 <= i < |c| ==> !ClearWinner(scores, i)
  {
    var r := TopTwo(scores);
    forall i | 0 <= i < |c|
      ensures Choose(c, scores) == MatchTo(c[i]) <==> ClearWinner(scores, i)
    {
      if Choose(c, scores) == MatchTo(c[i]) {
        assert c[r.0] == c[i];
      }
      if ClearWinner(scores, i) {
        assert r.0 == i;
        var j :| 0 <= j < |scores| && j != r.0 && scores[j] == r.2;
        assert !Ambiguous(scores[i], scores[j]);
      }
    }
  }

  /** Two positions sharing the top score rule out a clear winner. */
  lemma TieAtTopIsReview(c: seq<nat>, scores: seq<nat>, i: nat, j: nat)
    requires |c| == |scores| && Distinct(c)
    requires i < |c| && j < |c| && i != j && scores[i] == scores[j]
    requires forall t :: 0 <= t < |scores| ==> scores[t] <= scores[i]
    ensures Choose(c, scores) == Review
  {
    ChooseOutcome(c, scores);
    forall w | 0 <= w < |c|
      ensures !ClearWinner(scores, w)
    {
      var other := if w == i then j else i;
      assert Ambiguous(scores[w], scores[other]);
    }
  }

  /**
    For a payment with two or more candidates: it is matched to candidate `i` exactly when `i`
    is a clear winner, and sent to REVISAR exactly when no candidate is.
   */
  lemma SeveralCandidatesOutcome(sales: seq<Sale>, p: Payment)
    requires |CandidatesOf(sales, p)| >= 2
    ensures var c := CandidatesOf(sales, p);
      forall i :: 0 <= i < |c| ==> (Decide(sales, p) == MatchTo(c[i]) <==> ClearWinner(Scores(p, sales, c), i))
    ensures var c := CandidatesOf(sales, p);
      Decide(sales, p).Review? <==> forall i :: 0 <= i < |c| ==> !ClearWinner(Scores(p, sales, c), i)
  {
    var c := CandidatesOf(sales, p);
    ChooseOutcome(c, Scores(p, sales, c));
  }

  /** Among two or more candidates, the only one whose folio the payment mentions wins. */
  lemma FolioDominance(sales: seq<Sale>, p: Payment, i: nat)
    requires |CandidatesOf(sales, p)| >= 2
    requires var c := CandidatesOf(sales, p); i < |c| && FolioRecognised(sales[c[i]].folio, p)
    requires var c := CandidatesOf(sales, p);
      forall j :: 0 <= j < |c| && j != i ==> !FolioRecognised(sales[c[j]].folio, p)
    ensures Decide(sales, p) == MatchTo(CandidatesOf(sales, p)[i])
  {
    var c := CandidatesOf(sales, p);
    var s := Scores(p, sales, c);
    ChooseOutcome(c, s);
    assert ClearWinner(s, i);
  }

  // ===========================================================================
  // The pass as a function

  /** The two tables and the `matches` counter. */
  datatype PassState = PassState(sales: seq<Sale>, payments: seq<Payment>, matches: nat)

  /** `SET estado_banco = 'PAGADO', fecha_ultimo_cambio = CURRENT_TIMESTAMP`. */
  function MarkPaid(s: Sale, now: int): Sale {
    s.(status := SalePaid, lastChange := now)
  }

  /** `SET estado_conciliacion = 'MATCH', venta_id = ?`. */
  function MarkMatched(p: Payment, saleId: int): Payment {
    p.(status := PaymentMatch, saleId := Some(saleId))
  }

  /** `SET estado_conciliacion = 'REVISAR'`. */
  function MarkReview(p: Payment): Payment {
    p.(status := PaymentReview)
  }

  /** A sale table that differs from another only in sales that became PAGADO. */
  predicate PaidOnlyGrows(before: seq<Sale>, after: seq<Sale>) {
    && |after| == |before|
    && forall k :: 0 <= k < |before| ==>
         after[k] == before[k] || (before[k].status != SalePaid && after[k].status == SalePaid && after[k].id == before[k].id
                                   && after[k].account == before[k].account && after[k].amount == before[k].amount)
  }

  /** A per-payment rule: what to do with a payment given the current sales. */
  type Decider = (seq<Sale>, Payment) -> Decision

  /**
    What the pass relies on in its per-payment rule: a payment is left alone exactly when it
    has no candidate, and a match always picks one of its candidates.
   */
  ghost predicate SoundDecider(decide: Decider) {
    forall sales, p ::
      && (decide(sales, p).Skip? <==> CandidatesOf(sales, p) == [])
      && (decide(sales, p).MatchTo? ==> decide(sales, p).sale in CandidatesOf(sales, p))
  }

  /** The rule of the pass is such a rule. */
  lemma DecideIsSound()
    ensures SoundDecider(Decide)
  {
    forall sales, p
      ensures (Decide(sales, p).Skip? <==> CandidatesOf(sales, p) == [])
      ensures Decide(sales, p).MatchTo? ==> Decide(sales, p).sale in CandidatesOf(sales, p)
    {
    }
  }

  /** The updates for decision `d` on the payment at position `i`. */
  function Apply(st: PassState, i: nat, d: Decision, now: int): (r: PassState)
    requires i < |st.payments|
    requires d.MatchTo? ==> d.sale < |st.sales|
    ensures |r.sales| == |st.sales| && |r.payments| == |st.payments|
    ensures forall j :: 0 <= j < |st.payments| && j != i ==> r.payments[j] == st.payments[j]
  {
    match d
    case Skip => st
    case Review => st.(payments := st.payments[i := MarkReview(st.payments[i])])
    case MatchTo(k) =>
      PassState(st.sales[k := MarkPaid(st.sales[k], now)],
                st.payments[i := MarkMatched(st.payments[i], st.sales[k].id)],
                st.matches + 1)
  }

  /** One iteration of the loop, for the payment at position `i`. */
  function Step(st: PassState, i: nat, now: int, decide: Decider): (r: PassState)
    requires i < |st.payments|
    requires SoundDecider(decide)
    ensures |r.sales| == |st.sales| && |r.payments| == |st.payments|
    ensures PaidOnlyGrows(st.sales, r.sales)
    ensures forall j :: 0 <= j < |st.payments| && j != i ==> r.payments[j] == st.payments[j]
  {
    Apply(st, i, decide(st.sales, st.payments[i]), now)
  }

  predicate InRange(order: seq<nat>, n: nat) {
    forall t :: 0 <= t < |order| ==> order[t] < n
  }

  /** The steps for the payments of `order`, one after the other. */
  function Run(st: PassState, order: seq<nat>, now: int, decide: Decider): (r: PassState)
    requires InRange(order, |st.payments|)
    requires SoundDecider(decide)
    ensures |r.sales| == |st.sales| && |r.payments| == |st.payments|
    decreases |order|
  {
    if order == [] then st
    else Step(Run(st, order[..|order| - 1], now, decide), order[|order| - 1], now, decide)
  }

  /** `ORDER BY fecha_operacion ASC, id ASC`; an unreadable date sorts first. */
  predicate PayBefore(a: Payment, b: Payment) {
    || (a.opDay.None? && b.opDay.Some?)
    || (a.opDay.Some? && b.opDay.Some? && a.opDay.value < b.opDay.value)
    || (a.opDay == b.opDay && a.id <= b.id)
  }

  function PendingUpTo(ps: seq<Payment>, n: nat): (r: seq<nat>)
    requires n <= |ps|
    ensures forall t :: 0 <= t < |r| ==> r[t] < n && ps[r[t]].status == PaymentPending
    ensures forall j :: 0 <= j < n && ps[j].status == PaymentPending ==> j in r
    ensures forall t, u :: 0 <= t < u < |r| ==> r[t] < r[u]
  {
    if n == 0 then []
    else PendingUpTo(ps, n - 1) + (if ps[n - 1].status == PaymentPending then [n - 1] else [])
  }

  function PendingLe(ps: seq<Payment>): (nat, nat) -> bool {
    (i: nat, j: nat) => if i < |ps| && j < |ps| then PayBefore(ps[i], ps[j]) else i <= j || j >= |ps|
  }

  lemma PendingLeTotal(ps: seq<Payment>)
    ensures IsTotalPreorder(PendingLe(ps))
  {
  }

  /** The pending-payments query: every PENDIENTE payment once, in (date, id) order. */
  function PendingOrder(ps: seq<Payment>): (r: seq<nat>)
    ensures Distinct(r)
    ensures forall t :: 0 <= t < |r| ==> r[t] < |ps| && ps[r[t]].status == PaymentPending
    ensures forall j :: 0 <= j < |ps| && ps[j].status == PaymentPending ==> j in r
    ensures forall t, u :: 0 <= t < u < |r| ==> PayBefore(ps[r[t]], ps[r[u]])
  {
    var pending := PendingUpTo(ps, |ps|);
    PendingLeTotal(ps);
    var r := InsertionSort(pending, PendingLe(ps));
    assert forall t :: 0 <= t < |r| ==> r[t] in pending;
    r
  }

  /** `run_conciliacion()`: the whole pass over the pending payments, from a zero count. */
  function Conciliate(sales: seq<Sale>, ps: seq<Payment>, now: int): (r: PassState)
    ensures |r.sales| == |sales| && |r.payments| == |ps|
  {
    DecideIsSound();
    Run(PassState(sales, ps, 0), PendingOrder(ps), now, Decide)
  }

  // ===========================================================================
  // What the pass guarantees

  /** The payments moved from PENDIENTE to MATCH. */
  function NewlyMatched(before: seq<Payment>, after: seq<Payment>): set<nat> {
    set j | 0 <= j < |before| && j < |after| && before[j].status == PaymentPending && after[j].status == PaymentMatch
  }

  /** What may become of one payment: nothing, REVISAR, or MATCH with a link. */
  predicate PaymentOutcome(before: Payment, after: Payment) {
    || after == before
    || (before.status == PaymentPending && after == MarkReview(before))
    || (before.status == PaymentPending && after.saleId.Some? && after == MarkMatched(before, after.saleId.value))
  }

  ghost predicate ValidOrder(ps: seq<Payment>, order: seq<nat>) {
    && Distinct(order)
    && forall t :: 0 <= t < |order| ==> order[t] < |ps| && ps[order[t]].status == PaymentPending
  }

  lemma ValidOrderPrefix(ps: seq<Payment>, order: seq<nat>)
    requires ValidOrder(ps, order) && order != []
    ensures ValidOrder(ps, order[..|order| - 1])
    ensures order[|order| - 1] !in order[..|order| - 1]
  {
  }

  lemma PaidOnlyGrowsTrans(a: seq<Sale>, b: seq<Sale>, c: seq<Sale>)
    requires PaidOnlyGrows(a, b) && PaidOnlyGrows(b, c)
    ensures PaidOnlyGrows(a, c)
  {
  }

  /** Over a run, sales only become PAGADO. */
  lemma {:induction false} RunSales(st0: PassState, order: seq<nat>, now: int, decide: Decider)
    requires SoundDecider(decide)
    requires InRange(order, |st0.payments|)
    ensures PaidOnlyGrows(st0.sales, Run(st0, order, now, decide).sales)
  {
    if order != [] {
      var prefix := order[..|order| - 1];
      RunSales(st0, prefix, now, decide);
      var prev := Run(st0, prefix, now, decide);
      PaidOnlyGrowsTrans(st0.sales, prev.sales, Step(prev, order[|order| - 1], now, decide).sales);
    }
  }

  /** A run leaves the payments it does not visit untouched. */
  lemma {:induction false} RunUnvisited(st0: PassState, order: seq<nat>, now: int, decide: Decider)
    requires SoundDecider(decide)
    requires InRange(order, |st0.payments|)
    ensures var r := Run(st0, order, now, decide);
      forall j :: 0 <= j < |st0.payments| && j !in order ==> r.payments[j] == st0.payments[j]
  {
    if order != [] {
      RunUnvisited(st0, order[..|order| - 1], now, decide);
    }
  }

  /**
    Each visited payment ends unchanged, REVISAR or MATCH; one without account or amount
    ends unchanged.
   */
  lemma {:induction false} RunOutcome(st0: PassState, order: seq<nat>, now: int, decide: Decider)
    requires SoundDecider(decide)
    requires ValidOrder(st0.payments, order)
    ensures var r := Run(st0, order, now, decide);
      && (forall j :: 0 <= j < |st0.payments| ==> PaymentOutcome(st0.payments[j], r.payments[j]))
      && (forall j :: 0 <= j < |st0.payments| && (st0.payments[j].account.None? || st0.payments[j].amount.None?) ==>
            r.payments[j] == st0.payments[j])
  {
    if order != [] {
      var prefix, i := order[..|order| - 1], order[|order| - 1];
      ValidOrderPrefix(st0.payments, order);
      RunOutcome(st0, prefix, now, decide);
      RunUnvisited(st0, prefix, now, decide);
      var prev := Run(st0, prefix, now, decide);
      assert prev.payments[i] == st0.payments[i];
    }
  }

  /** Changing one PENDIENTE payment adds it to the newly matched ones exactly when it becomes MATCH. */
  lemma NewlyMatchedUpdate(ps0: seq<Payment>, a: seq<Payment>, b: seq<Payment>, i: nat)
    requires |a| == |ps0| && |b| == |ps0| && i < |ps0|
    requires a[i] == ps0[i] && ps0[i].status == PaymentPending
    requires forall j :: 0 <= j < |ps0| && j != i ==> b[j] == a[j]
    ensures i !in NewlyMatched(ps0, a)
    ensures NewlyMatched(ps0, b) == NewlyMatched(ps0, a) + (if b[i].status == PaymentMatch then {i} else {})
  {
  }

  /** The counter grows by the number of payments a run moves from PENDIENTE to MATCH. */
  lemma {:induction false} RunCount(st0: PassState, order: seq<nat>, now: int, decide: Decider)
    requires SoundDecider(decide)
    requires ValidOrder(st0.payments, order)
    ensures var r := Run(st0, order, now, decide);
      r.matches == st0.matches + |NewlyMatched(st0.payments, r.payments)|
  {
    if order == [] {
      assert NewlyMatched(st0.payments, st0.payments) == {};
    } else {
      var prefix, i := order[..|order| - 1], order[|order| - 1];
      ValidOrderPrefix(st0.payments, order);
      RunCount(st0, prefix, now, decide);
      RunUnvisited(st0, prefix, now, decide);
      StepCount(st0.payments, Run(st0, prefix, now, decide), i, now, decide);
    }
  }

  /** One step on a PENDIENTE payment counts one more exactly when it makes the payment MATCH. */
  lemma StepCount(ps0: seq<Payment>, prev: PassState, i: nat, now: int, decide: Decider)
    requires SoundDecider(decide) && |prev.payments| == |ps0| && i < |ps0|
    requires prev.payments[i] == ps0[i] && ps0[i].status == PaymentPending
    ensures var r := Step(prev, i, now, decide);
      r.matches - prev.matches == |NewlyMatched(ps0, r.payments)| - |NewlyMatched(ps0, prev.payments)|
  {
    var r := Step(prev, i, now, decide);
    NewlyMatchedUpdate(ps0, prev.payments, r.payments, i);
  }

  lemma NoCandidatesStayUpTo(before: seq<Sale>, after: seq<Sale>, account: int, amount: int, n: nat)
    requires PaidOnlyGrows(before, after) && n <= |before|
    requires CandidatesUpTo(before, account, amount, n) == []
    ensures CandidatesUpTo(after, account, amount, n) == []
  {
    var r := CandidatesUpTo(after, account, amount, n);
    forall k: nat | k < n
      ensures !IsCandidate(after[k], account, amount)
    {
      assert k !in CandidatesUpTo(before, account, amount, n);
    }
    assert forall k: nat :: k !in r;
  }

  /** A payment without candidates has none after more sales became PAGADO. */
  lemma NoCandidatesStay(before: seq<Sale>, after: seq<Sale>, p: Payment)
    requires PaidOnlyGrows(before, after)
    requires CandidatesOf(before, p) == []
    ensures CandidatesOf(after, p) == []
  {
    if p.account.Some? && p.amount.Some? {
      NoCandidatesStayUpTo(before, after, p.account.value, p.amount.value, |before|);
    }
  }

  /** Every visited payment that is still PENDIENTE has no candidate left. */
  lemma {:induction false} RunSettles(st0: PassState, order: seq<nat>, now: int, decide: Decider)
    requires SoundDecider(decide)
    requires ValidOrder(st0.payments, order)
    ensures var r := Run(st0, order, now, decide);
      forall j :: 0 <= j < |r.payments| && j in order && r.payments[j].status == PaymentPending ==>
        CandidatesOf(r.sales, r.payments[j]) == []
  {
    if order != [] {
      var prefix, i := order[..|order| - 1], order[|order| - 1];
      ValidOrderPrefix(st0.payments, order);
      RunSettles(st0, prefix, now, decide);
      var prev := Run(st0, prefix, now, decide);
      var r := Step(prev, i, now, decide);
      forall j | 0 <= j < |r.payments| && j in order && r.payments[j].status == PaymentPending
        ensures CandidatesOf(r.sales, r.payments[j]) == []
      {
        if j == i {
          assert decide(prev.sales, prev.payments[i]).Skip?;
        } else {
          assert j in prefix;
          NoCandidatesStay(prev.sales, r.sales, prev.payments[j]);
        }
      }
    }
  }

  /** Every PENDIENTE payment has no candidate: the state a pass cannot improve on. */
  ghost predicate Settled(sales: seq<Sale>, ps: seq<Payment>) {
    forall j :: 0 <= j < |ps| && ps[j].status == PaymentPending ==> CandidatesOf(sales, ps[j]) == []
  }

  lemma {:induction false} SettledRunIsIdentity(st: PassState, order: seq<nat>, now: int, decide: Decider)
    requires SoundDecider(decide)
    requires ValidOrder(st.payments, order)
    requires Settled(st.sales, st.payments)
    ensures Run(st, order, now, decide) == st
  {
    if order != [] {
      ValidOrderPrefix(st.payments, order);
      SettledRunIsIdentity(st, order[..|order| - 1], now, decide);
    }
  }

  /** After a pass, no PENDIENTE payment has a candidate sale left. */
  lemma ConciliateSettles(sales: seq<Sale>, ps: seq<Payment>, now: int)
    ensures var r := Conciliate(sales, ps, now); Settled(r.sales, r.payments)
  {
    DecideIsSound();
    var order := PendingOrder(ps);
    var st0 := PassState(sales, ps, 0);
    RunUnvisited(st0, order, now, Decide);
    RunSettles(st0, order, now, Decide);
  }

  /** Running the pass again straight away matches nothing and changes nothing. */
  lemma RerunChangesNothing(sales: seq<Sale>, ps: seq<Payment>, now: int, later: int)
    ensures var r := Conciliate(sales, ps, now);
      Conciliate(r.sales, r.payments, later) == PassState(r.sales, r.payments, 0)
  {
    DecideIsSound();
    var r := Conciliate(sales, ps, now);
    ConciliateSettles(sales, ps, now);
    SettledRunIsIdentity(PassState(r.sales, r.payments, 0), PendingOrder(r.payments), later, Decide);
  }

  /**
    The pass leaves MATCH and REVISAR payments, and payments without account or amount,
    exactly as they were; it counts the payments it moved to MATCH.
   */
  lemma ConciliateShape(sales: seq<Sale>, ps: seq<Payment>, now: int)
    ensures var r := Conciliate(sales, ps, now);
      && PaidOnlyGrows(sales, r.sales)
      && (forall j :: 0 <= j < |ps| && ps[j].status != PaymentPending ==> r.payments[j] == ps[j])
      && (forall j :: 0 <= j < |ps| && (ps[j].account.None? || ps[j].amount.None?) ==> r.payments[j] == ps[j])
      && (forall j :: 0 <= j < |ps| ==> PaymentOutcome(ps[j], r.payments[j]))
      && r.matches == |NewlyMatched(ps, r.payments)|
  {
    DecideIsSound();
    var st0, order := PassState(sales, ps, 0), PendingOrder(ps);
    RunSales(st0, order, now, Decide);
    RunUnvisited(st0, order, now, Decide);
    RunOutcome(st0, order, now, Decide);
    RunCount(st0, order, now, Decide);
  }

  // ---------------------------------------------------------------------------
  // Links made by the pass

  /**
    Each payment the pass matched points at a sale that was not PAGADO before, is PAGADO
    after, and has the payment's account and amount; no two of them point at the same sale.
   */
  ghost predicate LinksSound(sales0: seq<Sale>, ps0: seq<Payment>, sales: seq<Sale>, ps: seq<Payment>) {
    && (forall j :: j in NewlyMatched(ps0, ps) ==> LinkSound(sales0, ps0, sales, ps, j))
    && (forall j1, j2 :: j1 in NewlyMatched(ps0, ps) && j2 in NewlyMatched(ps0, ps) && j1 != j2 ==>
          ps[j1].saleId != ps[j2].saleId)
  }

  /** The payment at `j` points at a sale, once not PAGADO and now PAGADO, with its account and amount. */
  ghost predicate LinkSound(sales0: seq<Sale>, ps0: seq<Payment>, sales: seq<Sale>, ps: seq<Payment>, j: nat)
    requires j < |ps0| && j < |ps|
  {
    && ps[j].saleId.Some? && SaleIndex(sales0, ps[j].saleId.value).Some?
    && var k := SaleIndex(sales0, ps[j].saleId.value).value;
       k < |sales| && sales0[k].status != SalePaid && sales[k].status == SalePaid
       && ps0[j].account == Some(sales0[k].account) && ps0[j].amount == Some(sales0[k].amount)
  }

  lemma SaleIndexOfId(sales: seq<Sale>, k: nat)
    requires SaleIdsIncrease(sales) && k < |sales|
    ensures SaleIndex(sales, sales[k].id) == Some(k)
  {
  }

  lemma {:induction false} RunLinks(st0: PassState, order: seq<nat>, now: int, decide: Decider)
    requires SoundDecider(decide)
    requires ValidOrder(st0.payments, order)
    requires SaleIdsIncrease(st0.sales)
    ensures var r := Run(st0, order, now, decide); LinksSound(st0.sales, st0.payments, r.sales, r.payments)
  {
    var ps0, sales0 := st0.payments, st0.sales;
    if order == [] {
      assert NewlyMatched(ps0, ps0) == {};
    } else {
      var prefix, i := order[..|order| - 1], order[|order| - 1];
      ValidOrderPrefix(ps0, order);
      RunLinks(st0, prefix, now, decide);
      RunSales(st0, prefix, now, decide);
      RunUnvisited(st0, prefix, now, decide);
      StepLinks(sales0, ps0, Run(st0, prefix, now, decide), i, now, decide);
    }
  }

  /** One step keeps the links sound: a payment it matches points at a sale no earlier payment took. */
  lemma StepLinks(sales0: seq<Sale>, ps0: seq<Payment>, prev: PassState, i: nat, now: int, decide: Decider)
    requires SoundDecider(decide) && SaleIdsIncrease(sales0)
    requires PaidOnlyGrows(sales0, prev.sales) && |prev.payments| == |ps0| && i < |ps0|
    requires prev.payments[i] == ps0[i] && ps0[i].status == PaymentPending
    requires LinksSound(sales0, ps0, prev.sales, prev.payments)
    ensures var r := Step(prev, i, now, decide); LinksSound(sales0, ps0, r.sales, r.payments)
  {
    match decide(prev.sales, prev.payments[i])
    case Skip =>
    case Review =>
      ReviewKeepsLinks(sales0, ps0, prev, i, now);
    case MatchTo(k) =>
      MatchKeepsLinks(sales0, ps0, prev, i, k, now);
  }

  lemma ReviewKeepsLinks(sales0: seq<Sale>, ps0: seq<Payment>, prev: PassState, i: nat, now: int)
    requires |prev.payments| == |ps0| && i < |ps0|
    requires prev.payments[i] == ps0[i] && ps0[i].status == PaymentPending
    requires LinksSound(sales0, ps0, prev.sales, prev.payments)
    ensures var r := Apply(prev, i, Review, now); LinksSound(sales0, ps0, r.sales, r.payments)
  {
    var r := Apply(prev, i, Review, now);
    NewlyMatchedUpdate(ps0, prev.payments, r.payments, i);
    assert forall j :: j in NewlyMatched(ps0, r.payments) ==> r.payments[j] == prev.payments[j];
  }

  lemma MatchKeepsLinks(sales0: seq<Sale>, ps0: seq<Payment>, prev: PassState, i: nat, k: nat, now: int)
    requires SaleIdsIncrease(sales0)
    requires PaidOnlyGrows(sales0, prev.sales) && |prev.payments| == |ps0| && i < |ps0|
    requires prev.payments[i] == ps0[i] && ps0[i].status == PaymentPending
    requires k in CandidatesOf(prev.sales, prev.payments[i])
    requires LinksSound(sales0, ps0, prev.sales, prev.payments)
    ensures var r := Apply(prev, i, MatchTo(k), now); LinksSound(sales0, ps0, r.sales, r.payments)
  {
    var r := Apply(prev, i, MatchTo(k), now);
    NewlyMatchedUpdate(ps0, prev.payments, r.payments, i);
    var before := NewlyMatched(ps0, prev.payments);
    assert prev.sales[k] == sales0[k];
    SaleIndexOfId(sales0, k);
    forall j | j in NewlyMatched(ps0, r.payments)
      ensures LinkSound(sales0, ps0, r.sales, r.payments, j)
    {
      if j != i {
        assert LinkSound(sales0, ps0, prev.sales, prev.payments, j);
        assert r.payments[j] == prev.payments[j];
      }
    }
    forall j | j in before
      ensures r.payments[j].saleId != r.payments[i].saleId
    {
      var kj := SaleIndex(sales0, prev.payments[j].saleId.value).value;
      assert prev.sales[kj].status == SalePaid;
      assert kj != k;
    }
  }

  /** The pass links every sale to at most one of the payments it matched. */
  lemma ConciliateLinks(sales: seq<Sale>, ps: seq<Payment>, now: int)
    requires SaleIdsIncrease(sales)
    ensures var r := Conciliate(sales, ps, now); LinksSound(sales, ps, r.sales, r.payments)
  {
    DecideIsSound();
    RunLinks(PassState(sales, ps, 0), PendingOrder(ps), now, Decide);
  }

  // ---------------------------------------------------------------------------
  // The PAGADO-iff-linked relationship

  lemma LinkersUpdate(ps: seq<Payment>, i: nat, q: Payment, id: int)
    requires i < |ps|
    requires ps[i].status != PaymentMatch
    ensures Linkers(ps[i := q], id) == Linkers(ps, id) + (if q.status == PaymentMatch && q.saleId == Some(id) then {i} else {})
  {
  }

  lemma {:induction false} RunKeepsPaidIffLinked(st0: PassState, order: seq<nat>, now: int, decide: Decider)
    requires SoundDecider(decide)
    requires ValidOrder(st0.payments, order)
    requires SaleIdsIncrease(st0.sales)
    requires PaidIffLinked(st0.sales, st0.payments)
    ensures var r := Run(st0, order, now, decide); PaidIffLinked(r.sales, r.payments)
  {
    if order != [] {
      var prefix, i := order[..|order| - 1], order[|order| - 1];
      ValidOrderPrefix(st0.payments, order);
      RunKeepsPaidIffLinked(st0, prefix, now, decide);
      RunSales(st0, prefix, now, decide);
      RunUnvisited(st0, prefix, now, decide);
      var prev := Run(st0, prefix, now, decide);
      assert prev.payments[i] == st0.payments[i];
      assert SaleIdsIncrease(prev.sales);
      StepKeepsPaidIffLinked(prev, i, now, decide);
    }
  }

  /** One step on a PENDIENTE payment keeps every PAGADO sale linked once and the others unlinked. */
  lemma StepKeepsPaidIffLinked(prev: PassState, i: nat, now: int, decide: Decider)
    requires SoundDecider(decide) && i < |prev.payments| && prev.payments[i].status == PaymentPending
    requires SaleIdsIncrease(prev.sales) && PaidIffLinked(prev.sales, prev.payments)
    ensures var r := Step(prev, i, now, decide); PaidIffLinked(r.sales, r.payments)
  {
    var r := Step(prev, i, now, decide);
    match decide(prev.sales, prev.payments[i])
    case Skip =>
    case Review =>
      forall k | 0 <= k < |r.sales|
        ensures Linkers(r.payments, r.sales[k].id) == Linkers(prev.payments, prev.sales[k].id)
      {
        LinkersUpdate(prev.payments, i, MarkReview(prev.payments[i]), prev.sales[k].id);
      }
    case MatchTo(k) =>
      var q := MarkMatched(prev.payments[i], prev.sales[k].id);
      assert Linkers(prev.payments, prev.sales[k].id) == {};
      forall k' | 0 <= k' < |r.sales|
        ensures |Linkers(r.payments, r.sales[k'].id)| == if r.sales[k'].status == SalePaid then 1 else 0
      {
        LinkersUpdate(prev.payments, i, q, prev.sales[k'].id);
        if k' != k {
          assert prev.sales[k'].id != prev.sales[k].id;
        }
      }
  }

  /** A pass started where every PAGADO sale has exactly one MATCH payment ends that way too. */
  lemma ConciliateKeepsPaidIffLinked(sales: seq<Sale>, ps: seq<Payment>, now: int)
    requires SaleIdsIncrease(sales)
    requires PaidIffLinked(sales, ps)
    ensures var r := Conciliate(sales, ps, now); PaidIffLinked(r.sales, r.payments)
  {
    DecideIsSound();
    RunKeepsPaidIffLinked(PassState(sales, ps, 0), PendingOrder(ps), now, Decide);
  }

  // ===========================================================================
  // The pass over the database

  /** The inner loop `for v in ventas_posibles: scored.append((_score_candidate(p, v), v))`. */
  method ScoreCandidates(p: Payment, sales: seq<Sale>, cands: seq<nat>) returns (scored: seq<nat>)
    requires forall t :: 0 <= t < |cands| ==> cands[t] < |sales|
    ensures scored == Scores(p, sales, cands)
  {
    scored := [];
    var t := 0;
    while t < |cands|
      invariant 0 <= t <= |cands|
      invariant scored == Scores(p, sales, cands[..t])
    {
      ScoresSnoc(p, sales, cands, t);
      scored := scored + [Score(p, sales[cands[t]])];
      t := t + 1;
    }
    assert cands[..t] == cands;
  }

  lemma ScoresSnoc(p: Payment, sales: seq<Sale>, cands: seq<nat>, t: nat)
    requires forall u :: 0 <= u < |cands| ==> cands[u] < |sales|
    requires t < |cands|
    ensures Scores(p, sales, cands[..t + 1]) == Scores(p, sales, cands[..t]) + [Score(p, sales[cands[t]])]
  {
    var a, b := Scores(p, sales, cands[..t + 1]), Scores(p, sales, cands[..t]) + [Score(p, sales[cands[t]])];
    assert |a| == |b|;
    forall u | 0 <= u < |a|
      ensures a[u] == b[u]
    {
      if u < t {
        assert cands[..t + 1][u] == cands[..t][u];
      }
    }
  }

  /** The body of the loop up to its UPDATE statements: what to do with payment `p`. */
  method DecidePayment(sales: seq<Sale>, p: Payment) returns (d: Decision)
    ensures d == Decide(sales, p)
  {
    if p.account.None? || p.amount.None? {
      // no account or no amount: never risk a blind match
      return Skip;
    }
    var cands := CandidatesUpTo(sales, p.account.value, p.amount.value, |sales|);
    if |cands| == 0 {
      return Skip;
    }
    if |cands| == 1 {
      return MatchTo(cands[0]);
    }
    var scored := ScoreCandidates(p, sales, cands);
    // the head of `scored` sorted by descending score
    var top := TopTwo(scored);
    if top.1 < MinAutoScore || Ambiguous(top.1, top.2) {
      return Review;
    }
    return MatchTo(cands[top.0]);
  }

  /** The UPDATE statements for decision `d` on the payment at position `i`. */
  method ApplyDecision(db: Db, i: nat, d: Decision, now: int, matches: nat) returns (matches': nat)
    requires db.Valid()
    requires i < |db.payments|
    requires d.MatchTo? ==> d.sale < |db.sales|
    modifies db
    ensures db.Valid()
    ensures PassState(db.sales, db.payments, matches') == Apply(PassState(old(db.sales), old(db.payments), matches), i, d, now)
    ensures db.nextSaleId == old(db.nextSaleId) && db.nextPaymentId == old(db.nextPaymentId)
  {
    var p := db.payments[i];
    matches' := matches;
    match d
    case Skip =>
    case Review =>
      db.payments := db.payments[i := MarkReview(p)];
    case MatchTo(k) =>
      var sale := db.sales[k];
      db.payments := db.payments[i := MarkMatched(p, sale.id)];
      db.sales := db.sales[k := MarkPaid(sale, now)];
      matches' := matches + 1;
  }

  lemma RunExtend(st0: PassState, order: seq<nat>, t: nat, now: int, decide: Decider)
    requires SoundDecider(decide)
    requires InRange(order, |st0.payments|) && t < |order|
    ensures Run(st0, order[..t + 1], now, decide) == Step(Run(st0, order[..t], now, decide), order[t], now, decide)
  {
    assert order[..t + 1][..t] == order[..t];
  }

  /**
    `run_conciliacion()` on the database: the state it leaves and the count it returns are
    those of `Conciliate` on the tables it started from.
   */
  method RunConciliacion(db: Db, now: int) returns (matches: nat)
    requires db.Valid()
    modifies db
    ensures db.Valid()
    ensures PassState(db.sales, db.payments, matches) == Conciliate(old(db.sales), old(db.payments), now)
    ensures db.nextSaleId == old(db.nextSaleId) && db.nextPaymentId == old(db.nextPaymentId)
  {
    DecideIsSound();
    var order := PendingOrder(db.payments);
    ghost var st0 := PassState(db.sales, db.payments, 0);
    matches := 0;
    var t := 0;
    while t < |order|
      invariant 0 <= t <= |order|
      invariant PassState(db.sales, db.payments, matches) == Run(st0, order[..t], now, Decide)
      invariant db.Valid()
      invariant db.nextSaleId == old(db.nextSaleId) && db.nextPaymentId == old(db.nextPaymentId)
    {
      RunExtend(st0, order, t, now, Decide);
      var i := order[t];
      var d := DecidePayment(db.sales, db.payments[i]);
      matches := ApplyDecision(db, i, d, now, matches);
      t := t + 1;
    }
    assert order[..|order|] == order;
  }
}
