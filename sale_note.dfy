/**
  The note a quick sale carries: written when the sale is created, one line per invoice
  folded into it, and read back by the sale page, the payment page and the daily close.
 */
module SaleNote {
  import opened Wrappers
  import opened Text
  import opened Decimals

  /** The text whose presence marks a note as a quick sale's ("Venta rápida"). */
  const Marker: string := "Venta r\U{E1}pida"

  /** Client name written when the invoice has none. */
  const NoClient: string := "SIN NOMBRE"

  /** One invoice of a quick sale: its document number, net amount, and the amount charged (cents). */
  datatype QuickLine = QuickLine(document: string, original: int, edited: int)

  /** A line read back from a note: document, amount charged, original amount. */
  datatype Detail = Detail(document: string, edited: Decimal, original: Decimal)

  // ---------------------------------------------------------------------------
  // Writing

  /** The word that introduces the original amount. */
  const OriginalTag: string := "(original"

  /**
    `f"Doc {documento}: {editado:.2f} (original {original:.2f})"`, put together from the
    pieces the reader cuts it into.
   */
  function DetailLine(l: QuickLine): string {
    "Doc " + (l.document + ":" + (" " + AmountsText(FormatCents(l.edited), FormatCents(l.original))))
  }

  /** `"<charged> (original <original>)"`. */
  function AmountsText(e: string, o: string): string {
    (e + " ") + OriginalTag + (" " + o + ")")
  }

  function DetailLines(ls: seq<QuickLine>): (r: seq<string>)
    ensures |r| == |ls|
  {
    seq(|ls|, k requires 0 <= k < |ls| => DetailLine(ls[k]))
  }

  /** `cliente or "SIN NOMBRE"`. */
  function ClientName(client: string): string {
    if client == [] then NoClient else client
  }

  /** The header, the client (or SIN NOMBRE), then the detail lines joined by line feeds. */
  function WriteNote(client: string, ls: seq<QuickLine>): string {
    (Marker + ".") + "\n" + (("Cliente: " + ClientName(client)) + "\n" + JoinLines(DetailLines(ls)))
  }

  // ---------------------------------------------------------------------------
  // Reading

  /**
    One line of a note. A line that, stripped, does not start with "Doc ", has no ':' after
    the prefix, or whose amounts `float()` refuses, gives None (the loop skips it). Without
    "(original" the one amount stands for both.
   */
  function ParseLine(line: string): (r: Option<Detail>)
    ensures r.Some? ==> "Doc " <= Strip(line)
  {
    var l := Strip(line);
    if !("Doc " <= l) then None
    else
      match SplitOnce(l[4..], ":")
      case None => None
      case Some((docPart, rest)) =>
        match ParseAmounts(Strip(rest))
        case Some((e, o)) => Some(Detail(Strip(docPart), e, o))
        case None => None
  }

  /** The text after the ':': "<charged> (original <original>)", or one amount standing for both. */
  function ParseAmounts(rest: string): (r: Option<(Decimal, Decimal)>)
    ensures r.Some? && !Contains(rest, OriginalTag) ==> r.value.0 == r.value.1
  {
    match SplitOnce(rest, OriginalTag)
    case Some((editText, originalPart)) =>
      (match (ParseFloat(Strip(editText)), ParseFloat(Strip(RemoveChars(originalPart, {')'}))))
       case (Some(e), Some(o)) => Some((e, o))
       case _ => None)
    case None =>
      (match ParseFloat(Strip(rest))
       case Some(e) => Some((e, e))
       case None => None)
  }

  /** The results of `f` that are present, in order: the loop that appends each line that parses. */
  function FilterMap<A, B>(xs: seq<A>, f: A -> Option<B>): (r: seq<B>)
    ensures |r| <= |xs|
    decreases |xs|
  {
    if xs == [] then []
    else
      var rest := FilterMap(xs[1..], f);
      match f(xs[0])
      case Some(y) => [y] + rest
      case None => rest
  }

  /** The lines that parse, in order. */
  function ParseLines(lines: seq<string>): (r: seq<Detail>)
    ensures |r| <= |lines|
  {
    FilterMap(lines, ParseLine)
  }

  /** The details of a note: none unless it contains the marker, else the lines that parse. */
  function ParseNote(note: string): (r: seq<Detail>)
    ensures !Contains(note, Marker) ==> r == []
    ensures |r| <= |SplitLines(note)|
  {
    if Contains(note, Marker) then ParseLines(SplitLines(note)) else []
  }

  /** The payment page only reads the note of the sale the payment is linked to. */
  function PaymentPageDetails(saleId: Option<int>, note: Option<string>): (r: seq<Detail>)
    ensures saleId.None? || saleId == Some(0) || note.None? ==> r == []
    ensures saleId.Some? && saleId.value != 0 && note.Some? ==> r == ParseNote(note.value)
  {
    if saleId.Some? && saleId.value != 0 && note.Some? then ParseNote(note.value) else []
  }

  /** The sale page and the daily close read an absent note as empty. */
  function SaleNoteDetails(note: Option<string>): (r: seq<Detail>)
    ensures note.None? ==> r == []
    ensures note.Some? ==> r == ParseNote(note.value)
  {
    if note.Some? then ParseNote(note.value) else []
  }

  // ---------------------------------------------------------------------------
  // Reading back what was written

  /** A document number the line format can carry: no ':', no line break, no surrounding space. */
  predicate CleanDocument(doc: string) {
    && Excludes(doc, ':')
    && NoLineBreak(doc)
    && Strip(doc) == doc
  }

  function Expected(l: QuickLine): Detail {
    Detail(l.document, Decimal(l.edited, 2), Decimal(l.original, 2))
  }

  /** What a note written from `ls` should read back as: each invoice, in order. */
  function ExpectedAll(ls: seq<QuickLine>): (r: seq<Detail>)
    ensures |r| == |ls|
  {
    seq(|ls|, k requires 0 <= k < |ls| => Expected(ls[k]))
  }

  lemma NumericNoLineBreak(s: string)
    requires NumericText(s)
    ensures NoLineBreak(s)
  {
  }

  lemma DropCloseParen(o: string)
    requires NumericText(o)
    ensures RemoveChars(" " + o + ")", {')'}) == " " + o
  {
    RemoveCharsAppend(" " + o, ")", {')'});
    RemoveCharsAbsent(" " + o, {')'});
    assert ")"[1..] == [];
  }

  lemma StripLeadingSpace(o: string)
    requires o != [] && !IsSpace(o[0]) && !IsSpace(o[|o| - 1])
    ensures Strip(" " + o) == o
  {
    StripDropsFirst(' ', o);
    assert [' '] + o == " " + o;
    StripKeeps(o);
  }

  /** The parts of the line after "(original": a space, the amount, the closing parenthesis. */
  lemma OriginalPart(o: string)
    requires NumericText(o) && |o| >= 4 && IsDigit(o[|o| - 1]) && (IsDigit(o[0]) || o[0] == '-')
    ensures ParseFloat(Strip(RemoveChars(" " + o + ")", {')'}))) == ParseDecimal(o)
  {
    DropCloseParen(o);
    StripLeadingSpace(o);
    StripKeeps(o);
  }

  /** The amount before "(original": the amount followed by one space. */
  lemma EditedPart(e: string)
    requires NumericText(e) && |e| >= 4 && IsDigit(e[|e| - 1]) && (IsDigit(e[0]) || e[0] == '-')
    ensures ParseFloat(Strip(e + " ")) == ParseDecimal(e)
  {
    StripDropsLast(e, ' ');
    assert e + [' '] == e + " ";
    StripKeeps(e);
  }

  lemma SplitAmounts(e: string, o: string)
    requires NumericText(e)
    ensures SplitOnce(AmountsText(e, o), OriginalTag) == Some((e + " ", " " + o + ")"))
  {
    SplitOnceAt(e + " ", OriginalTag, " " + o + ")");
  }

  lemma StripAmounts(e: string, o: string)
    requires NumericText(e) && |e| >= 4 && (IsDigit(e[0]) || e[0] == '-')
    ensures Strip(" " + AmountsText(e, o)) == AmountsText(e, o)
  {
    var t := AmountsText(e, o);
    assert [' '] + t == " " + t;
    StripDropsFirst(' ', t);
    assert t[|t| - 1] == ')';
    assert t[0] == e[0];
    StripKeeps(t);
  }

  lemma SplitDocument(doc: string, tail: string)
    requires Excludes(doc, ':')
    ensures SplitOnce(doc + ":" + tail, ":") == Some((doc, tail))
  {
    SplitOnceAt(doc, ":", tail);
  }

  /** Both amounts of a written line read back. */
  lemma ParseWrittenAmounts(e: string, o: string)
    requires NumericText(e) && |e| >= 4 && IsDigit(e[|e| - 1]) && (IsDigit(e[0]) || e[0] == '-')
    requires NumericText(o) && |o| >= 4 && IsDigit(o[|o| - 1]) && (IsDigit(o[0]) || o[0] == '-')
    requires ParseDecimal(e).Some? && ParseDecimal(o).Some?
    ensures ParseAmounts(AmountsText(e, o)) == Some((ParseDecimal(e).value, ParseDecimal(o).value))
  {
    SplitAmounts(e, o);
    EditedPart(e);
    OriginalPart(o);
  }

  /** A written line starts with "Doc " and ends with ')': stripping leaves it as it is. */
  lemma DetailLineStripped(l: QuickLine)
    ensures Strip(DetailLine(l)) == DetailLine(l)
    ensures "Doc " <= DetailLine(l)
  {
    var a := AmountsText(FormatCents(l.edited), FormatCents(l.original));
    var line := DetailLine(l);
    assert a[|a| - 1] == ')';
    assert line[0] == 'D' && line[|line| - 1] == a[|a| - 1];
    StripKeeps(line);
  }

  /** After the prefix, the first ':' ends the document number. */
  lemma DetailLineSplit(l: QuickLine)
    requires Excludes(l.document, ':')
    ensures SplitOnce(DetailLine(l)[4..], ":")
         == Some((l.document, " " + AmountsText(FormatCents(l.edited), FormatCents(l.original))))
  {
    var tail := " " + AmountsText(FormatCents(l.edited), FormatCents(l.original));
    assert DetailLine(l)[4..] == l.document + ":" + tail;
    SplitDocument(l.document, tail);
  }

  /** A written detail line reads back as the document and both amounts in hundredths. */
  lemma ParseDetailLine(l: QuickLine)
    requires CleanDocument(l.document)
    ensures ParseLine(DetailLine(l)) == Some(Expected(l))
  {
    var e, o := FormatCents(l.edited), FormatCents(l.original);
    FormatCentsShape(l.edited);
    FormatCentsShape(l.original);
    ParseFormatCents(l.edited);
    ParseFormatCents(l.original);
    DetailLineStripped(l);
    DetailLineSplit(l);
    StripAmounts(e, o);
    ParseWrittenAmounts(e, o);
  }

  /** Header lines never start with "Doc " once stripped. */
  lemma HeaderSkipped(client: string)
    ensures ParseLine(Marker + ".") == None
    ensures ParseLine("Cliente: " + client) == None
  {
    var h := Marker + ".";
    assert h[0] == 'V' && h[|h| - 1] == '.';
    StripKeeps(h);
    assert !("Doc " <= h) by {
      assert h[0] != "Doc "[0];
    }
    ClientLineStripped(client);
    var t := Strip("Cliente: " + client);
    assert !("Doc " <= t) by {
      assert t[0] != "Doc "[0];
    }
  }

  lemma ClientLineStripped(client: string)
    ensures Strip("Cliente: " + client) != [] && Strip("Cliente: " + client)[0] == 'C'
  {
    var c := "Cliente: " + client;
    assert TrimLeft(c) == c;
    TrimRightPrefix(c);
    assert |TrimRight(c)| >= 8 by {
      assert !IsSpace(c[7]);
    }
  }

  /** When `f` gives a value for every element, the values are exactly `ys`. */
  lemma {:induction false} FilterMapAll<A, B>(xs: seq<A>, ys: seq<B>, f: A -> Option<B>)
    requires |xs| == |ys|
    requires forall k :: 0 <= k < |xs| ==> f(xs[k]) == Some(ys[k])
    ensures FilterMap(xs, f) == ys
    decreases |xs|
  {
    if xs != [] {
      assert f(xs[0]) == Some(ys[0]);
      assert forall k :: 0 <= k < |xs| - 1 ==> xs[1..][k] == xs[k + 1] && ys[1..][k] == ys[k + 1];
      FilterMapAll(xs[1..], ys[1..], f);
      assert ys == [ys[0]] + ys[1..];
    }
  }

  /** Two elements without a value add nothing in front of the rest. */
  lemma FilterMapSkipTwo<A, B>(x1: A, x2: A, rest: seq<A>, f: A -> Option<B>)
    requires f(x1).None? && f(x2).None?
    ensures FilterMap([x1, x2] + rest, f) == FilterMap(rest, f)
  {
    var xs := [x1, x2] + rest;
    assert xs[1..] == [x2] + rest;
    assert xs[1..][1..] == rest;
  }

  lemma ParseDetailLines(ls: seq<QuickLine>)
    requires forall k :: 0 <= k < |ls| ==> CleanDocument(ls[k].document)
    ensures ParseLines(DetailLines(ls)) == ExpectedAll(ls)
  {
    forall k | 0 <= k < |ls|
      ensures ParseLine(DetailLines(ls)[k]) == Some(ExpectedAll(ls)[k])
    {
      DetailLineParses(ls, k);
    }
    FilterMapAll(DetailLines(ls), ExpectedAll(ls), ParseLine);
  }

  lemma DetailLineParses(ls: seq<QuickLine>, k: nat)
    requires k < |ls| && CleanDocument(ls[k].document)
    ensures ParseLine(DetailLines(ls)[k]) == Some(ExpectedAll(ls)[k])
  {
    ParseDetailLine(ls[k]);
  }

  lemma MarkedNote(note: string, lines: seq<string>)
    requires Contains(note, Marker) && SplitLines(note) == lines
    ensures ParseNote(note) == ParseLines(lines)
  {
  }

  lemma DetailLinesWellFormed(ls: seq<QuickLine>)
    requires forall k :: 0 <= k < |ls| ==> CleanDocument(ls[k].document)
    ensures forall k :: 0 <= k < |ls| ==> DetailLines(ls)[k] != [] && NoLineBreak(DetailLines(ls)[k])
  {
    forall k | 0 <= k < |ls|
      ensures NoLineBreak(DetailLines(ls)[k])
    {
      DetailLineUnbroken(ls[k]);
    }
  }

  /** A detail line with a clean document is one line. */
  lemma DetailLineUnbroken(l: QuickLine)
    requires CleanDocument(l.document)
    ensures NoLineBreak(DetailLine(l))
  {
    var e, o := FormatCents(l.edited), FormatCents(l.original);
    FormatCentsShape(l.edited);
    FormatCentsShape(l.original);
    NumericNoLineBreak(e);
    NumericNoLineBreak(o);
    assert NoLineBreak(" ") && NoLineBreak(")") && NoLineBreak(":") && NoLineBreak("Doc ");
    assert NoLineBreak(OriginalTag);
    NoLineBreakConcat(e, " ");
    NoLineBreakConcat(e + " ", OriginalTag);
    NoLineBreakConcat(" ", o);
    NoLineBreakConcat(" " + o, ")");
    NoLineBreakConcat((e + " ") + OriginalTag, " " + o + ")");
    var a := AmountsText(e, o);
    NoLineBreakConcat(" ", a);
    NoLineBreakConcat(l.document, ":");
    NoLineBreakConcat(l.document + ":", " " + a);
    NoLineBreakConcat("Doc ", l.document + ":" + (" " + a));
  }

  /** The header opens every quick sale's note. */
  lemma NoteMarked(client: string, ls: seq<QuickLine>)
    ensures Contains(WriteNote(client, ls), Marker)
  {
    var note := WriteNote(client, ls);
    assert note[..|Marker|] == Marker;
    assert OccursAt(note, Marker, 0);
    ContainsIff(note, Marker);
  }

  lemma HeaderLinesUnbroken(client: string)
    requires NoLineBreak(client)
    ensures NoLineBreak(Marker + ".")
    ensures NoLineBreak("Cliente: " + ClientName(client))
  {
    assert NoLineBreak(NoClient);
  }

  /** A note splits into its header, its client line and its detail lines. */
  lemma NoteLines(client: string, ls: seq<QuickLine>)
    requires NoLineBreak(client)
    requires forall k :: 0 <= k < |ls| ==> CleanDocument(ls[k].document)
    ensures SplitLines(WriteNote(client, ls)) == [Marker + ".", "Cliente: " + ClientName(client)] + DetailLines(ls)
  {
    HeaderLinesUnbroken(client);
    SplitTwoLines(Marker + ".", "Cliente: " + ClientName(client), JoinLines(DetailLines(ls)));
    DetailLinesWellFormed(ls);
    SplitJoinLines(DetailLines(ls));
  }

  /**
    A quick sale's note reads back as exactly the invoices written into it, in order, each
    amount in hundredths, whenever the client name has no line break and the document
    numbers are clean.
   */
  lemma ParseWriteNote(client: string, ls: seq<QuickLine>)
    requires NoLineBreak(client)
    requires forall k :: 0 <= k < |ls| ==> CleanDocument(ls[k].document)
    ensures ParseNote(WriteNote(client, ls)) == ExpectedAll(ls)
  {
    var name := ClientName(client);
    NoteMarked(client, ls);
    NoteLines(client, ls);
    HeaderSkipped(name);
    FilterMapSkipTwo(Marker + ".", "Cliente: " + name, DetailLines(ls), ParseLine);
    MarkedNote(WriteNote(client, ls), [Marker + ".", "Cliente: " + name] + DetailLines(ls));
    ParseDetailLines(ls);
  }

  /** For a payment linked to a sale, the payment page shows the details the sale page shows. */
  lemma PagesAgree(saleId: int, note: Option<string>)
    requires saleId != 0
    ensures PaymentPageDetails(Some(saleId), note) == SaleNoteDetails(note)
  {
  }

  /**
    A quick sale's note shows its invoices on the sale page, the daily close and the page
    of a payment linked to it; an unlinked payment shows none.
   */
  lemma WrittenNoteOnEveryPage(saleId: int, client: string, ls: seq<QuickLine>)
    requires saleId != 0
    requires NoLineBreak(client)
    requires forall k :: 0 <= k < |ls| ==> CleanDocument(ls[k].document)
    ensures SaleNoteDetails(Some(WriteNote(client, ls))) == ExpectedAll(ls)
    ensures PaymentPageDetails(Some(saleId), Some(WriteNote(client, ls))) == ExpectedAll(ls)
    ensures PaymentPageDetails(None, Some(WriteNote(client, ls))) == []
  {
    ParseWriteNote(client, ls);
  }
}
