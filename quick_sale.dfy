/**
  The second step of a quick sale: the selected invoices are grouped by client in order of
  first appearance, and each client whose charged total is positive becomes one PENDIENTE
  sale with a generated folio and a note listing its invoices. The inserts are committed
  together, then the reconciliation pass runs.
 */
module QuickSale {
  import opened Wrappers
  import opened Text
  import opened Decimals
  import opened Records
  import opened Sorting
  import opened SaleNote
  import opened Conciliacion

  /** One entry of `facturas_json`: document number, client, net amount in cents. */
  datatype Invoice = Invoice(document: string, client: string, net: int)

  /**
    The posted form. `invoices` is None when `facturas_json` is missing or empty;
    `edits` maps a selected index to the text of its `monto_<idx>` field.
   */
  datatype QuickSaleForm = QuickSaleForm(
    seller: Option<int>,
    account: Option<int>,
    invoices: Option<seq<Invoice>>,
    selection: seq<string>,
    edits: map<int, string>)

  datatype QuickSaleError =
    | MissingSellerOrAccount   // "Falta vendedor o cuenta bancaria ..."
    | MissingInvoices          // "No se recibió el detalle de facturas."
    | EmptySelection           // "Debes seleccionar al menos una factura."
    | BadIndex                 // int() or the list index raises: the request fails, nothing is written
    | BlankClient              // a client of only whitespace: split()[0] raises, nothing is written

  // ===========================================================================
  // Selecting

  /** Python's `facturas[idx]`: a negative index counts from the end. */
  function PyIndex(idx: int, len: nat): (r: Option<nat>)
    ensures r.Some? ==> r.value < len
    ensures r.Some? <==> -(len as int) <= idx < len
    ensures r.Some? && idx >= 0 ==> r.value == idx
    ensures r.Some? && idx < 0 ==> r.value == len + idx
  {
    if 0 <= idx < len then Some(idx) else if -(len as int) <= idx < 0 then Some(len + idx) else None
  }

  /** The charged amount: the edited field when `float()` reads it, the invoice's net otherwise. */
  function ChargedAmount(edits: map<int, string>, idx: int, net: int): (r: int)
    ensures idx !in edits ==> r == net
    ensures idx in edits && ParseFloat(edits[idx]).Some? ==> r == DecimalCents(ParseFloat(edits[idx]).value)
    ensures idx in edits && ParseFloat(edits[idx]).None? ==> r == net
  {
    if idx in edits then
      match ParseFloat(edits[idx])
      case Some(d) => DecimalCents(d)
      case None => net
    else net
  }

  /** An edit field holding a `:.2f` text charges exactly the cents written there, whatever the net. */
  lemma ChargedFormattedCents(edits: map<int, string>, idx: int, net: int, c: int)
    requires idx in edits && edits[idx] == FormatCents(c)
    ensures ChargedAmount(edits, idx, net) == c
  {
    DecimalCentsFormat(c);
  }

  /** One selected index: its client and the detail line of its invoice. */
  function SelectOne(invoices: seq<Invoice>, edits: map<int, string>, idxText: string): (r: Result<(string, QuickLine), QuickSaleError>)
    ensures r.Failure? ==> r.error == BadIndex
  {
    match ParseInteger(idxText)
    case None => Failure(BadIndex)
    case Some(idx) =>
      match PyIndex(idx, |invoices|)
      case None => Failure(BadIndex)
      case Some(j) =>
        var f := invoices[j];
        Success((f.client, QuickLine(f.document, f.net, ChargedAmount(edits, idx, f.net))))
  }

  /** All selected indices in order; the first bad one fails the whole request. */
  function SelectAll(invoices: seq<Invoice>, edits: map<int, string>, selection: seq<string>): (r: Result<seq<(string, QuickLine)>, QuickSaleError>)
    ensures r.Success? ==> |r.value| == |selection|
    ensures r.Failure? ==> r.error == BadIndex
    ensures r.Success? <==> forall j :: 0 <= j < |selection| ==> SelectOne(invoices, edits, selection[j]).Success?
    ensures r.Success? ==> forall j :: 0 <= j < |selection| ==> Success(r.value[j]) == SelectOne(invoices, edits, selection[j])
    decreases |selection|
  {
    if selection == [] then Success([])
    else
      match SelectAll(invoices, edits, selection[..|selection| - 1])
      case Failure(e) => Failure(e)
      case Success(init) =>
        match SelectOne(invoices, edits, selection[|selection| - 1])
        case Failure(e) => Failure(e)
        case Success(x) => Success(init + [x])
  }

  // ===========================================================================
  // Grouping by client

  datatype ClientGroup = ClientGroup(client: string, lines: seq<QuickLine>)

  function FindGroup(groups: seq<ClientGroup>, client: string): (r: Option<nat>)
    ensures r.Some? ==> r.value < |groups| && groups[r.value].client == client
    ensures r.None? ==> forall i :: 0 <= i < |groups| ==> groups[i].client != client
  {
    if groups == [] then None
    else if groups[0].client == client then Some(0)
    else match FindGroup(groups[1..], client)
      case None => None
      case Some(i) => Some(i + 1)
  }

  /** `por_cliente[cliente].append(detalle)`: a new client's group goes after the others. */
  function AddLine(groups: seq<ClientGroup>, client: string, line: QuickLine): seq<ClientGroup> {
    match FindGroup(groups, client)
    case None => groups + [ClientGroup(client, [line])]
    case Some(i) => groups[i := ClientGroup(client, groups[i].lines + [line])]
  }

  function Group(sel: seq<(string, QuickLine)>): seq<ClientGroup>
    decreases |sel|
  {
    if sel == [] then [] else AddLine(Group(sel[..|sel| - 1]), sel[|sel| - 1].0, sel[|sel| - 1].1)
  }

  /** The clients in order of first appearance. */
  function Clients(sel: seq<(string, QuickLine)>): seq<string>
    decreases |sel|
  {
    if sel == [] then []
    else
      var init := Clients(sel[..|sel| - 1]);
      if sel[|sel| - 1].0 in init then init else init + [sel[|sel| - 1].0]
  }

  /** The lines of one client, in selection order. */
  function LinesOf(sel: seq<(string, QuickLine)>, client: string): seq<QuickLine>
    decreases |sel|
  {
    if sel == [] then []
    else LinesOf(sel[..|sel| - 1], client) + if sel[|sel| - 1].0 == client then [sel[|sel| - 1].1] else []
  }

  lemma {:induction false} ClientsOf(sel: seq<(string, QuickLine)>)
    ensures Distinct(Clients(sel))
    ensures forall c :: c in Clients(sel) <==> exists j :: 0 <= j < |sel| && sel[j].0 == c
    ensures forall c :: c !in Clients(sel) ==> LinesOf(sel, c) == []
    decreases |sel|
  {
    if sel != [] {
      var init := sel[..|sel| - 1];
      ClientsOf(init);
      forall c
        ensures c in Clients(sel) <==> exists j :: 0 <= j < |sel| && sel[j].0 == c
      {
        if c in Clients(init) {
          var j :| 0 <= j < |init| && init[j].0 == c;
          assert sel[j] == init[j];
        }
        if exists j :: 0 <= j < |sel| && sel[j].0 == c {
          var j :| 0 <= j < |sel| && sel[j].0 == c;
          if j < |init| {
            assert init[j] == sel[j];
          }
        }
      }
    }
  }

  /**
    The grouping is the reference one: one group per client in order of first appearance,
    holding exactly that client's lines in selection order.
   */
  lemma {:induction false} GroupByFirstAppearance(sel: seq<(string, QuickLine)>)
    ensures |Group(sel)| == |Clients(sel)|
    ensures forall i :: 0 <= i < |Group(sel)| ==> Group(sel)[i] == ClientGroup(Clients(sel)[i], LinesOf(sel, Clients(sel)[i]))
    decreases |sel|
  {
    if sel != [] {
      var init := sel[..|sel| - 1];
      var (c, l) := sel[|sel| - 1];
      GroupByFirstAppearance(init);
      ClientsOf(init);
      var g := Group(init);
      var cs := Clients(init);
      match FindGroup(g, c)
      case None =>
        assert c !in cs;
        assert LinesOf(init, c) == [];
      case Some(i) =>
        assert cs[i] == c;
        forall m | 0 <= m < |cs| && m != i
          ensures cs[m] != c
        {
        }
    }
  }

  /** The loop that resolves each selected index and files its line under its client. */
  method SelectAndGroup(invoices: seq<Invoice>, edits: map<int, string>, selection: seq<string>)
    returns (r: Result<seq<ClientGroup>, QuickSaleError>)
    ensures SelectAll(invoices, edits, selection).Failure? ==> r == Failure(SelectAll(invoices, edits, selection).error)
    ensures SelectAll(invoices, edits, selection).Success? ==> r == Success(Group(SelectAll(invoices, edits, selection).value))
  {
    var groups: seq<ClientGroup> := [];
    ghost var sel: seq<(string, QuickLine)> := [];
    var t := 0;
    while t < |selection|
      invariant 0 <= t <= |selection|
      invariant SelectAll(invoices, edits, selection[..t]) == Success(sel)
      invariant groups == Group(sel)
    {
      var one := SelectOne(invoices, edits, selection[t]);
      SelectStep(invoices, edits, selection, t, sel);
      if one.Failure? {
        return Failure(one.error);
      }
      groups := AddLine(groups, one.value.0, one.value.1);
      sel := sel + [one.value];
      t := t + 1;
    }
    assert selection[..t] == selection;
    r := Success(groups);
  }

  /** One turn of the selection loop, in terms of the selection so far. */
  lemma SelectStep(invoices: seq<Invoice>, edits: map<int, string>, selection: seq<string>, t: nat, sel: seq<(string, QuickLine)>)
    requires t < |selection| && SelectAll(invoices, edits, selection[..t]) == Success(sel)
    ensures SelectOne(invoices, edits, selection[t]).Failure? ==> SelectAll(invoices, edits, selection) == Failure(BadIndex)
    ensures SelectOne(invoices, edits, selection[t]).Success? ==>
      var x := SelectOne(invoices, edits, selection[t]).value;
      SelectAll(invoices, edits, selection[..t + 1]) == Success(sel + [x]) && Group(sel + [x]) == AddLine(Group(sel), x.0, x.1)
  {
    var one := SelectOne(invoices, edits, selection[t]);
    if one.Failure? {
      SelectAllFailsAt(invoices, edits, selection, t);
    } else {
      SelectAllExtends(invoices, edits, selection, t, one.value);
      GroupSnoc(sel, one.value);
    }
  }

  lemma SelectAllExtends(invoices: seq<Invoice>, edits: map<int, string>, selection: seq<string>, t: nat, x: (string, QuickLine))
    requires t < |selection| && SelectAll(invoices, edits, selection[..t]).Success?
    requires SelectOne(invoices, edits, selection[t]) == Success(x)
    ensures SelectAll(invoices, edits, selection[..t + 1]) == Success(SelectAll(invoices, edits, selection[..t]).value + [x])
  {
    assert selection[..t + 1][..t] == selection[..t];
  }

  lemma SelectAllFailsAt(invoices: seq<Invoice>, edits: map<int, string>, selection: seq<string>, t: nat)
    requires t < |selection| && SelectOne(invoices, edits, selection[t]).Failure?
    ensures SelectAll(invoices, edits, selection) == Failure(BadIndex)
  {
    SelectAllStopsAt(invoices, edits, selection, t);
    SelectAllFailsFrom(invoices, edits, selection, t + 1);
  }

  lemma SelectAllStopsAt(invoices: seq<Invoice>, edits: map<int, string>, selection: seq<string>, t: nat)
    requires t < |selection| && SelectOne(invoices, edits, selection[t]).Failure?
    ensures SelectAll(invoices, edits, selection[..t + 1]).Failure?
  {
    assert selection[..t + 1][..t] == selection[..t];
  }

  lemma GroupSnoc(sel: seq<(string, QuickLine)>, x: (string, QuickLine))
    ensures Group(sel + [x]) == AddLine(Group(sel), x.0, x.1)
  {
    assert (sel + [x])[..|sel|] == sel;
  }

  /** Once a prefix of the selection fails, so does the whole of it, with the same error. */
  lemma {:induction false} SelectAllFailsFrom(invoices: seq<Invoice>, edits: map<int, string>, selection: seq<string>, n: nat)
    requires n <= |selection|
    requires SelectAll(invoices, edits, selection[..n]).Failure?
    ensures SelectAll(invoices, edits, selection).Failure?
    decreases |selection| - n
  {
    if n < |selection| {
      assert selection[..n + 1][..n] == selection[..n];
      SelectAllFailsFrom(invoices, edits, selection, n + 1);
    } else {
      assert selection[..n] == selection;
    }
  }

  // ===========================================================================
  // The sales

  function Total(lines: seq<QuickLine>): int
    decreases |lines|
  {
    if lines == [] then 0 else Total(lines[..|lines| - 1]) + lines[|lines| - 1].edited
  }

  /** `cliente.split()[0] if cliente else "VR"`, without its hyphens; None where `split()[0]` raises. */
  function FolioCode(client: string): (r: Option<string>)
    ensures client == [] ==> r == Some("VR")
    ensures r.None? <==> client != [] && forall i :: 0 <= i < |client| ==> IsSpace(client[i])
    ensures r.Some? ==> Excludes(r.value, '-')
  {
    if client == [] then Some("VR")
    else
      match FirstWord(client)
      case None => None
      case Some(w) => Some(RemoveChars(w, {'-'}))
  }

  /** `f"VR-{codigo}-{stamp}"`, the stamp being the creation time as YYYYMMDDHHMMSS. */
  function QuickFolio(code: string, stamp: string): string {
    "VR-" + code + "-" + stamp
  }

  /** The INSERT for one client: PENDIENTE, created and last changed now, the total as amount. */
  function NewSale(id: int, g: ClientGroup, code: string, account: int, seller: int, stamp: string, now: int): Sale {
    Sale(id, QuickFolio(code, stamp), g.client, Total(g.lines), account, seller, SalePending, Some(now), now, GroupNote(g))
  }

  lemma SalesOfAt(planned: seq<(ClientGroup, string)>, next: int, account: int, seller: int, stamp: string, now: int, i: nat)
    requires i < |planned|
    ensures SalesOf(planned, next, account, seller, stamp, now)[i] == NewSale(next + i, planned[i].0, planned[i].1, account, seller, stamp, now)
  {
  }

  lemma NewSaleFields(id: int, g: ClientGroup, code: string, account: int, seller: int, stamp: string, now: int)
    ensures var s := NewSale(id, g, code, account, seller, stamp, now);
      && s.id == id && s.client == g.client && s.note == GroupNote(g) && s.amount == Total(g.lines)
      && s.account == account && s.seller == seller && s.status == SalePending && s.created == Some(now) && s.lastChange == now
  {
  }

  /** The note of a group's sale. */
  function GroupNote(g: ClientGroup): string {
    WriteNote(g.client, g.lines)
  }

  /**
    The insert loop over the first `n` groups, as the groups it inserts and their folio codes:
    a group whose total is not positive is passed over; a blank client fails the request.
   */
  function PlanUpTo(groups: seq<ClientGroup>, n: nat): (r: Result<seq<(ClientGroup, string)>, QuickSaleError>)
    requires n <= |groups|
    ensures r.Success? ==> |r.value| <= n
    ensures r.Failure? ==> r.error == BlankClient
  {
    if n == 0 then Success([])
    else
      match PlanUpTo(groups, n - 1)
      case Failure(e) => Failure(e)
      case Success(planned) =>
        var g := groups[n - 1];
        if Total(g.lines) <= 0 then Success(planned)
        else
          match FolioCode(g.client)
          case None => Failure(BlankClient)
          case Some(code) => Success(planned + [(g, code)])
  }

  /** The rows the planned inserts write, with consecutive ids from `next`. */
  function SalesOf(planned: seq<(ClientGroup, string)>, next: int, account: int, seller: int, stamp: string, now: int): (r: seq<Sale>)
    ensures |r| == |planned|
  {
    seq(|planned|, i requires 0 <= i < |planned| => NewSale(next + i, planned[i].0, planned[i].1, account, seller, stamp, now))
  }

  /** The groups of positive total among the first `n`, in order. */
  function Positive(groups: seq<ClientGroup>, n: nat): (r: seq<ClientGroup>)
    requires n <= |groups|
    ensures |r| <= n
    ensures forall i :: 0 <= i < |r| ==> Total(r[i].lines) > 0
  {
    if n == 0 then []
    else
      var init := Positive(groups, n - 1);
      if Total(groups[n - 1].lines) > 0 then init + [groups[n - 1]] else init
  }

  /** Every group has a usable folio code. */
  predicate AllCoded(pos: seq<ClientGroup>) {
    forall i :: 0 <= i < |pos| ==> FolioCode(pos[i].client).Some?
  }

  lemma AllCodedSnoc(before: seq<ClientGroup>, g: ClientGroup)
    ensures AllCoded(before + [g]) <==> AllCoded(before) && FolioCode(g.client).Some?
  {
    var pos := before + [g];
    assert pos[|before|] == g;
    assert forall m :: 0 <= m < |before| ==> pos[m] == before[m];
  }

  lemma PlanStep(groups: seq<ClientGroup>, n: nat)
    requires 0 < n <= |groups|
    ensures PlanUpTo(groups, n).Success? <==>
      PlanUpTo(groups, n - 1).Success? && (Total(groups[n - 1].lines) <= 0 || FolioCode(groups[n - 1].client).Some?)
  {
  }

  /** The inserts succeed exactly when every group of positive total has a usable client. */
  lemma {:induction false} PlanSucceedsIff(groups: seq<ClientGroup>, n: nat)
    requires n <= |groups|
    ensures PlanUpTo(groups, n).Success? <==> AllCoded(Positive(groups, n))
  {
    if n > 0 {
      PlanSucceedsIff(groups, n - 1);
      PlanStep(groups, n);
      var g := groups[n - 1];
      if Total(g.lines) > 0 {
        assert Positive(groups, n) == Positive(groups, n - 1) + [g];
        AllCodedSnoc(Positive(groups, n - 1), g);
      } else {
        assert Positive(groups, n) == Positive(groups, n - 1);
      }
    }
  }

  /** When they succeed, one group is inserted per group of positive total, in order, under its folio code. */
  lemma {:induction false} PlanCovers(groups: seq<ClientGroup>, n: nat)
    requires n <= |groups|
    requires PlanUpTo(groups, n).Success?
    ensures var planned := PlanUpTo(groups, n).value;
      var pos := Positive(groups, n);
      && |planned| == |pos|
      && forall i :: 0 <= i < |pos| ==> FolioCode(pos[i].client).Some? && planned[i] == (pos[i], FolioCode(pos[i].client).value)
  {
    if n > 0 {
      PlanCovers(groups, n - 1);
      var g := groups[n - 1];
      if Total(g.lines) > 0 {
        assert Positive(groups, n) == Positive(groups, n - 1) + [g];
        assert PlanUpTo(groups, n).value == PlanUpTo(groups, n - 1).value + [(g, FolioCode(g.client).value)];
      }
    }
  }

  /** The whole request as a function of the form: the sales to insert, or the error it ends with. */
  function QuickSalePlan(f: QuickSaleForm, next: int, stamp: string, now: int): (r: Result<seq<Sale>, QuickSaleError>)
    ensures f.seller.None? || f.account.None? ==> r == Failure(MissingSellerOrAccount)
    ensures f.seller.Some? && f.account.Some? && f.invoices.None? ==> r == Failure(MissingInvoices)
    ensures f.seller.Some? && f.account.Some? && f.invoices.Some? && f.selection == [] ==> r == Failure(EmptySelection)
  {
    if f.seller.None? || f.account.None? then Failure(MissingSellerOrAccount)
    else if f.invoices.None? then Failure(MissingInvoices)
    else if f.selection == [] then Failure(EmptySelection)
    else
      match SelectAll(f.invoices.value, f.edits, f.selection)
      case Failure(e) => Failure(e)
      case Success(sel) =>
        var groups := Group(sel);
        match PlanUpTo(groups, |groups|)
        case Failure(e) => Failure(e)
        case Success(planned) => Success(SalesOf(planned, next, f.account.value, f.seller.value, stamp, now))
  }

  // ===========================================================================
  // What a quick sale creates

  /** A request that succeeds selects, groups and plans without error, and its sales are the planned rows. */
  lemma PlanOfForm(f: QuickSaleForm, next: int, stamp: string, now: int)
    requires QuickSalePlan(f, next, stamp, now).Success?
    ensures f.seller.Some? && f.account.Some? && f.invoices.Some?
    ensures SelectAll(f.invoices.value, f.edits, f.selection).Success?
    ensures var groups := Group(SelectAll(f.invoices.value, f.edits, f.selection).value);
      && PlanUpTo(groups, |groups|).Success?
      && QuickSalePlan(f, next, stamp, now).value == SalesOf(PlanUpTo(groups, |groups|).value, next, f.account.value, f.seller.value, stamp, now)
  {
  }

  /** Every sale a quick sale creates is PENDIENTE, has a positive amount, and its id is fresh. */
  lemma CreatedSalesShape(f: QuickSaleForm, next: int, stamp: string, now: int)
    requires QuickSalePlan(f, next, stamp, now).Success?
    ensures var made := QuickSalePlan(f, next, stamp, now).value;
      forall i :: 0 <= i < |made| ==>
        && made[i].id == next + i
        && made[i].status == SalePending
        && made[i].amount > 0
        && made[i].account == f.account.value && made[i].seller == f.seller.value
        && made[i].created == Some(now) && made[i].lastChange == now
  {
    PlanOfForm(f, next, stamp, now);
    var groups := Group(SelectAll(f.invoices.value, f.edits, f.selection).value);
    var planned := PlanUpTo(groups, |groups|).value;
    var made := SalesOf(planned, next, f.account.value, f.seller.value, stamp, now);
    PlanCovers(groups, |groups|);
    forall i | 0 <= i < |made|
      ensures made[i].id == next + i && made[i].status == SalePending && made[i].amount > 0
      ensures made[i].account == f.account.value && made[i].seller == f.seller.value
      ensures made[i].created == Some(now) && made[i].lastChange == now
    {
      SalesOfAt(planned, next, f.account.value, f.seller.value, stamp, now, i);
      NewSaleFields(next + i, planned[i].0, planned[i].1, f.account.value, f.seller.value, stamp, now);
    }
  }

  /** The groups of positive total are whole client groups of the selection, no two for the same client. */
  lemma PositiveGroupsPerClient(sel: seq<(string, QuickLine)>)
    ensures var groups := Group(sel);
      var pos := Positive(groups, |groups|);
      && (forall i :: 0 <= i < |pos| ==> pos[i].client in Clients(sel) && pos[i] == ClientGroup(pos[i].client, LinesOf(sel, pos[i].client)))
      && (forall i, j :: 0 <= i < j < |pos| ==> pos[i].client != pos[j].client)
  {
    var groups := Group(sel);
    var pos := Positive(groups, |groups|);
    GroupByFirstAppearance(sel);
    ClientsOf(sel);
    PositiveInOrder(groups, |groups|);
    forall i | 0 <= i < |pos|
      ensures pos[i].client in Clients(sel) && pos[i] == ClientGroup(pos[i].client, LinesOf(sel, pos[i].client))
    {
      var k := PositiveSource(groups, |groups|, i);
      assert groups[k] == ClientGroup(Clients(sel)[k], LinesOf(sel, Clients(sel)[k]));
    }
    forall i, j | 0 <= i < j < |pos|
      ensures pos[i].client != pos[j].client
    {
      var a, b := PositiveSource(groups, |groups|, i), PositiveSource(groups, |groups|, j);
      assert groups[a].client == Clients(sel)[a] && groups[b].client == Clients(sel)[b];
    }
  }

  /**
    Each sale the plan writes belongs to one client of the selection, carries the whole of that
    client's selected lines in its note, and charges their total; no two belong to the same client.
   */
  lemma SalesPerClient(sel: seq<(string, QuickLine)>, next: int, account: int, seller: int, stamp: string, now: int)
    requires PlanUpTo(Group(sel), |Group(sel)|).Success?
    ensures var made := SalesOf(PlanUpTo(Group(sel), |Group(sel)|).value, next, account, seller, stamp, now);
      && (forall i :: 0 <= i < |made| ==>
            && made[i].client in Clients(sel)
            && made[i].note == GroupNote(ClientGroup(made[i].client, LinesOf(sel, made[i].client)))
            && made[i].amount == Total(LinesOf(sel, made[i].client)))
      && (forall i, j :: 0 <= i < j < |made| ==> made[i].client != made[j].client)
  {
    var groups := Group(sel);
    var planned := PlanUpTo(groups, |groups|).value;
    var made := SalesOf(planned, next, account, seller, stamp, now);
    PlanCovers(groups, |groups|);
    PositiveGroupsPerClient(sel);
    var pos := Positive(groups, |groups|);
    forall i | 0 <= i < |made|
      ensures made[i].client == pos[i].client && made[i].note == GroupNote(pos[i]) && made[i].amount == Total(pos[i].lines)
    {
      assert planned[i].0 == pos[i];
      SalesOfAt(planned, next, account, seller, stamp, now, i);
      NewSaleFields(next + i, planned[i].0, planned[i].1, account, seller, stamp, now);
    }
  }

  /** The same for the form: every created sale is one client's, with all of that client's lines. */
  lemma CreatedSalesPerClient(f: QuickSaleForm, next: int, stamp: string, now: int)
    requires QuickSalePlan(f, next, stamp, now).Success?
    ensures var made := QuickSalePlan(f, next, stamp, now).value;
      var sel := SelectAll(f.invoices.value, f.edits, f.selection).value;
      && (forall i :: 0 <= i < |made| ==>
            && made[i].client in Clients(sel)
            && made[i].note == GroupNote(ClientGroup(made[i].client, LinesOf(sel, made[i].client)))
            && made[i].amount == Total(LinesOf(sel, made[i].client)))
      && (forall i, j :: 0 <= i < j < |made| ==> made[i].client != made[j].client)
  {
    PlanOfForm(f, next, stamp, now);
    SalesPerClient(SelectAll(f.invoices.value, f.edits, f.selection).value, next, f.account.value, f.seller.value, stamp, now);
  }

  /** Where the `i`-th positive group sits among the groups. */
  function PositiveSource(groups: seq<ClientGroup>, n: nat, i: nat): (k: nat)
    requires n <= |groups| && i < |Positive(groups, n)|
    ensures k < n && groups[k] == Positive(groups, n)[i]
  {
    var init := Positive(groups, n - 1);
    if i < |init| then PositiveSource(groups, n - 1, i) else n - 1
  }

  /** Positive groups keep the order of the groups they come from. */
  lemma {:induction false} PositiveInOrder(groups: seq<ClientGroup>, n: nat)
    requires n <= |groups|
    ensures forall i, j :: 0 <= i < j < |Positive(groups, n)| ==> PositiveSource(groups, n, i) < PositiveSource(groups, n, j)
  {
    if n > 0 {
      PositiveInOrder(groups, n - 1);
    }
  }

  /** A client's note reads back as that client's lines, when the selection is clean. */
  lemma GroupNoteReadsBack(sel: seq<(string, QuickLine)>, client: string)
    requires client in Clients(sel)
    requires forall j :: 0 <= j < |sel| ==> CleanDocument(sel[j].1.document) && NoLineBreak(sel[j].0)
    ensures var ls := LinesOf(sel, client);
      ParseNote(GroupNote(ClientGroup(client, ls))) == ExpectedAll(ls)
  {
    ClientsOf(sel);
    var j :| 0 <= j < |sel| && sel[j].0 == client;
    LinesOfClean(sel, client);
    ParseWriteNote(client, LinesOf(sel, client));
  }

  /** The note of a created sale reads back as its client's invoices, when its documents are clean. */
  lemma CreatedNoteReadsBack(f: QuickSaleForm, next: int, stamp: string, now: int, i: nat)
    requires QuickSalePlan(f, next, stamp, now).Success?
    requires i < |QuickSalePlan(f, next, stamp, now).value|
    requires forall k :: 0 <= k < |f.invoices.value| ==> CleanDocument(f.invoices.value[k].document) && NoLineBreak(f.invoices.value[k].client)
    ensures var s := QuickSalePlan(f, next, stamp, now).value[i];
      var ls := LinesOf(SelectAll(f.invoices.value, f.edits, f.selection).value, s.client);
      ParseNote(s.note) == ExpectedAll(ls)
  {
    var s := QuickSalePlan(f, next, stamp, now).value[i];
    var sel := SelectAll(f.invoices.value, f.edits, f.selection).value;
    CreatedSalesPerClient(f, next, stamp, now);
    SelectedClean(f.invoices.value, f.edits, f.selection);
    GroupNoteReadsBack(sel, s.client);
  }

  /** Selected lines take their client and document from an invoice, so clean invoices give clean lines. */
  lemma {:induction false} SelectedClean(invoices: seq<Invoice>, edits: map<int, string>, selection: seq<string>)
    requires SelectAll(invoices, edits, selection).Success?
    requires forall k :: 0 <= k < |invoices| ==> CleanDocument(invoices[k].document) && NoLineBreak(invoices[k].client)
    ensures var sel := SelectAll(invoices, edits, selection).value;
      forall j :: 0 <= j < |sel| ==> CleanDocument(sel[j].1.document) && NoLineBreak(sel[j].0)
    decreases |selection|
  {
    if selection != [] {
      SelectedClean(invoices, edits, selection[..|selection| - 1]);
    }
  }

  /** A client's lines are lines of the selection, so they are clean when all of those are. */
  lemma {:induction false} LinesOfClean(sel: seq<(string, QuickLine)>, client: string)
    requires forall j :: 0 <= j < |sel| ==> CleanDocument(sel[j].1.document)
    ensures forall k :: 0 <= k < |LinesOf(sel, client)| ==> CleanDocument(LinesOf(sel, client)[k].document)
    decreases |sel|
  {
    if sel != [] {
      var init := sel[..|sel| - 1];
      assert forall j :: 0 <= j < |init| ==> init[j] == sel[j];
      LinesOfClean(init, client);
    }
  }

  /** An empty client gives the code "VR"; a client of only whitespace makes the request fail. */
  lemma FolioCodeEmptyOrBlank()
    ensures FolioCode("") == Some("VR")
    ensures FolioCode("   ") == None
  {
  }

  /**
    For any client that has a word, the code is its first word with the hyphens removed,
    whatever whitespace comes before it and whatever follows it.
   */
  lemma FolioCodeOfFirstWord(lead: string, w: string, rest: string)
    requires forall i :: 0 <= i < |lead| ==> IsSpace(lead[i])
    requires w != [] && forall i :: 0 <= i < |w| ==> !IsSpace(w[i])
    requires rest == [] || IsSpace(rest[0])
    ensures FolioCode(lead + w + rest) == Some(RemoveChars(w, {'-'}))
  {
    FirstWordAfter(lead, w, rest);
    assert |lead + w + rest| > 0;
  }

  /** The code is the client's first word. */
  lemma FolioCodeFirstWord()
    ensures FolioCode("ACME SA") == Some("ACME")
  {
    FirstWordAt("ACME", " SA");
    assert "ACME" + " SA" == "ACME SA";
    RemoveCharsAbsent("ACME", {'-'});
  }

  /** Hyphens are dropped from the code, so the folio keeps exactly two. */
  lemma FolioCodeDropsHyphens()
    ensures FolioCode("A-B C") == Some("AB")
  {
    FirstWordAt("A-B", " C");
    assert "A-B" + " C" == "A-B C";
    assert RemoveChars("A-B", {'-'}) == "AB" by {
      assert "A-B"[1..] == "-B";
      assert "-B"[1..] == "B";
      assert "B"[1..] == [];
    }
  }

  // ===========================================================================
  // On the database

  /** New sales get ids no payment links to, so PAGADO-iff-linked holds for them: they are not PAGADO and unlinked. */
  lemma InsertKeepsPaidIffLinked(sales: seq<Sale>, ps: seq<Payment>, nextSale: int, made: seq<Sale>)
    requires PaidIffLinked(sales, ps)
    requires forall j :: 0 <= j < |ps| && ps[j].saleId.Some? ==> ps[j].saleId.value < nextSale
    requires forall i :: 0 <= i < |made| ==> made[i].id >= nextSale && made[i].status != SalePaid
    ensures PaidIffLinked(sales + made, ps)
  {
    var all := sales + made;
    forall k | 0 <= k < |all|
      ensures |Linkers(ps, all[k].id)| == if all[k].status == SalePaid then 1 else 0
    {
      if k >= |sales| {
        assert all[k] == made[k - |sales|];
        assert Linkers(ps, all[k].id) == {};
      }
    }
  }

  /**
    A quick sale followed by its reconciliation pass keeps every PAGADO sale linked by exactly
    one MATCH payment and every other sale unlinked.
   */
  lemma QuickSaleKeepsPaidIffLinked(f: QuickSaleForm, sales: seq<Sale>, ps: seq<Payment>, next: int, stamp: string, now: int)
    requires SaleIdsIncrease(sales) && PaidIffLinked(sales, ps)
    requires forall k :: 0 <= k < |sales| ==> sales[k].id < next
    requires forall j :: 0 <= j < |ps| && ps[j].saleId.Some? ==> ps[j].saleId.value < next
    requires QuickSalePlan(f, next, stamp, now).Success?
    ensures var r := Conciliate(sales + QuickSalePlan(f, next, stamp, now).value, ps, now);
      PaidIffLinked(r.sales, r.payments)
  {
    var made := QuickSalePlan(f, next, stamp, now).value;
    CreatedSalesShape(f, next, stamp, now);
    InsertKeepsPaidIffLinked(sales, ps, next, made);
    AppendKeepsIdsIncreasing(sales, next, made);
    ConciliateKeepsPaidIffLinked(sales + made, ps, now);
  }

  /**
    Step 2 of the quick-sale page. On any error nothing is written. Otherwise the planned
    sales are inserted, `creadas` is their number, and the reconciliation pass runs over
    the enlarged table.
   */
  method CreateQuickSales(db: Db, f: QuickSaleForm, stamp: string, now: int) returns (r: Result<nat, QuickSaleError>, matches: nat)
    requires db.Valid()
    modifies db
    ensures db.Valid()
    ensures var plan := QuickSalePlan(f, old(db.nextSaleId), stamp, now);
      && (plan.Failure? ==> r == Failure(plan.error) && db.sales == old(db.sales) && db.payments == old(db.payments) && matches == 0)
      && (plan.Success? ==>
            r == Success(|plan.value|) && PassState(db.sales, db.payments, matches) == Conciliate(old(db.sales) + plan.value, old(db.payments), now))
    ensures db.nextPaymentId == old(db.nextPaymentId)
  {
    matches := 0;
    if f.seller.None? || f.account.None? {
      return Failure(MissingSellerOrAccount), 0;
    }
    if f.invoices.None? {
      return Failure(MissingInvoices), 0;
    }
    if f.selection == [] {
      return Failure(EmptySelection), 0;
    }
    var grouped := SelectAndGroup(f.invoices.value, f.edits, f.selection);
    if grouped.Failure? {
      return Failure(grouped.error), 0;
    }
    var inserted := InsertPlanned(db, grouped.value, f.account.value, f.seller.value, stamp, now);
    if inserted.Failure? {
      return Failure(inserted.error), 0;
    }
    r := Success(inserted.value);
    matches := RunConciliacion(db, now);
  }

  /** The insert loop of `venta_rapida_paso2`: the rows it writes, or the error that aborts it. */
  method PlanInserts(groups: seq<ClientGroup>, next: int, account: int, seller: int, stamp: string, now: int)
    returns (r: Result<seq<Sale>, QuickSaleError>)
    ensures PlanUpTo(groups, |groups|).Failure? ==> r == Failure(PlanUpTo(groups, |groups|).error)
    ensures PlanUpTo(groups, |groups|).Success? ==> r == Success(SalesOf(PlanUpTo(groups, |groups|).value, next, account, seller, stamp, now))
  {
    var made: seq<Sale> := [];
    ghost var planned: seq<(ClientGroup, string)> := [];
    var t := 0;
    while t < |groups|
      invariant 0 <= t <= |groups|
      invariant PlanUpTo(groups, t) == Success(planned)
      invariant made == SalesOf(planned, next, account, seller, stamp, now)
    {
      var g := groups[t];
      if Total(g.lines) > 0 {
        var code := FolioCode(g.client);
        if code.None? {
          PlanStopsAt(groups, t);
          PlanFailsFrom(groups, t + 1);
          return Failure(BlankClient);
        }
        InsertStep(groups, t, planned, made, code.value, next, account, seller, stamp, now);
        made := made + [NewSale(next + |made|, g, code.value, account, seller, stamp, now)];
        planned := planned + [(g, code.value)];
      } else {
        PlanSkipsAt(groups, t);
      }
      t := t + 1;
    }
    r := Success(made);
  }

  /**
    The inserts committed as one transaction: either every planned sale is appended with the
    next ids, or the table is left as it was.
   */
  method InsertPlanned(db: Db, groups: seq<ClientGroup>, account: int, seller: int, stamp: string, now: int)
    returns (r: Result<nat, QuickSaleError>)
    requires db.Valid()
    modifies db
    ensures db.Valid()
    ensures var plan := PlanUpTo(groups, |groups|);
      && (plan.Failure? ==> r == Failure(plan.error) && db.sales == old(db.sales) && db.nextSaleId == old(db.nextSaleId))
      && (plan.Success? ==>
            r == Success(|plan.value|) && db.sales == old(db.sales) + SalesOf(plan.value, old(db.nextSaleId), account, seller, stamp, now))
    ensures db.payments == old(db.payments) && db.nextPaymentId == old(db.nextPaymentId)
  {
    var rows := PlanInserts(groups, db.nextSaleId, account, seller, stamp, now);
    if rows.Failure? {
      return Failure(rows.error);
    }
    var made := rows.value;
    AppendKeepsIdsIncreasing(db.sales, db.nextSaleId, made);
    db.sales, db.nextSaleId := db.sales + made, db.nextSaleId + |made|;
    r := Success(|made|);
  }

  lemma PlanSkipsAt(groups: seq<ClientGroup>, t: nat)
    requires t < |groups| && Total(groups[t].lines) <= 0
    ensures PlanUpTo(groups, t + 1) == PlanUpTo(groups, t)
  {
  }

  lemma PlanAddsAt(groups: seq<ClientGroup>, t: nat, code: string)
    requires t < |groups| && Total(groups[t].lines) > 0 && FolioCode(groups[t].client) == Some(code)
    ensures PlanUpTo(groups, t).Success? ==> PlanUpTo(groups, t + 1) == Success(PlanUpTo(groups, t).value + [(groups[t], code)])
  {
  }

  lemma PlanStopsAt(groups: seq<ClientGroup>, t: nat)
    requires t < |groups| && Total(groups[t].lines) > 0 && FolioCode(groups[t].client).None?
    ensures PlanUpTo(groups, t + 1).Failure?
  {
  }

  /** One pass of the insert loop over a group of positive total with a usable code. */
  lemma InsertStep(groups: seq<ClientGroup>, t: nat, planned: seq<(ClientGroup, string)>, made: seq<Sale>, code: string,
                   next: int, account: int, seller: int, stamp: string, now: int)
    requires t < |groups| && PlanUpTo(groups, t) == Success(planned)
    requires made == SalesOf(planned, next, account, seller, stamp, now)
    requires Total(groups[t].lines) > 0 && FolioCode(groups[t].client) == Some(code)
    ensures PlanUpTo(groups, t + 1) == Success(planned + [(groups[t], code)])
    ensures made + [NewSale(next + |made|, groups[t], code, account, seller, stamp, now)]
         == SalesOf(planned + [(groups[t], code)], next, account, seller, stamp, now)
  {
    PlanAddsAt(groups, t, code);
    SalesOfAppend(planned, groups[t], code, next, account, seller, stamp, now);
  }

  lemma SalesOfAppend(planned: seq<(ClientGroup, string)>, g: ClientGroup, code: string, next: int, account: int, seller: int, stamp: string, now: int)
    ensures SalesOf(planned + [(g, code)], next, account, seller, stamp, now)
      == SalesOf(planned, next, account, seller, stamp, now) + [NewSale(next + |planned|, g, code, account, seller, stamp, now)]
  {
  }

  /** Rows with consecutive ids from `next`, above every existing id, keep the table's ids increasing and below the next id. */
  lemma AppendKeepsIdsIncreasing(sales: seq<Sale>, next: int, made: seq<Sale>)
    requires SaleIdsIncrease(sales) && forall k :: 0 <= k < |sales| ==> sales[k].id < next
    requires forall i :: 0 <= i < |made| ==> made[i].id == next + i
    ensures SaleIdsIncrease(sales + made)
    ensures forall k :: 0 <= k < |sales + made| ==> (sales + made)[k].id < next + |made|
  {
  }

  /** Once the inserts fail on a prefix of the groups, they fail on all of them. */
  lemma {:induction false} PlanFailsFrom(groups: seq<ClientGroup>, n: nat)
    requires n <= |groups|
    requires PlanUpTo(groups, n).Failure?
    ensures PlanUpTo(groups, |groups|).Failure?
    decreases |groups| - n
  {
    if n < |groups| {
      PlanFailsFrom(groups, n + 1);
    }
  }
}
