/** The whitelist a payment receipt's file name must pass before it is stored. */
module Receipts {
  import opened Wrappers
  import opened Text

  /** `ALLOWED_COMPROBANTES`. */
  const AllowedExtensions: set<string> := {"png", "jpg", "jpeg", "pdf"}

  /** `filename.rsplit(".", 1)[1]`: the text after the last '.', None without one. */
  function Extension(name: string): (r: Option<string>)
    ensures r.None? <==> Excludes(name, '.')
    ensures r.Some? ==> Excludes(r.value, '.')
  {
    match LastIndexOf(name, '.')
    case None => None
    case Some(i) => Some(name[i + 1..])
  }

  /** `allowed_comprobante`: there is a '.', and the lower-cased extension is whitelisted. */
  predicate AllowedReceipt(name: string) {
    match Extension(name)
    case None => false
    case Some(ext) => Lower(ext) in AllowedExtensions
  }

  /** The extension of `stem.ext` is `ext` whatever the stem holds, dots included. */
  lemma ExtensionOf(stem: string, ext: string)
    requires Excludes(ext, '.')
    ensures Extension(stem + "." + ext) == Some(ext)
  {
    var name := stem + "." + ext;
    assert name[|stem|] == '.';
    var i := LastIndexOf(name, '.').value;
    assert i == |stem|;
    assert name[i + 1..] == ext;
  }

  /** A name is accepted exactly when it is some `stem.ext` with a whitelisted extension, ignoring case. */
  lemma AllowedReceiptIff(name: string)
    ensures AllowedReceipt(name) <==>
      exists stem, ext :: name == stem + "." + ext && Excludes(ext, '.') && Lower(ext) in AllowedExtensions
  {
    match LastIndexOf(name, '.')
    case None =>
      assert forall stem, ext :: name == stem + "." + ext ==> name[|stem|] == '.';
    case Some(i) =>
      var stem, ext := name[..i], name[i + 1..];
      assert name == stem + "." + ext;
      if AllowedReceipt(name) {
        assert Excludes(ext, '.') && Lower(ext) in AllowedExtensions;
      }
      forall stem', ext' | name == stem' + "." + ext' && Excludes(ext', '.')
        ensures ext' == ext
      {
        ExtensionOf(stem', ext');
      }
  }

  /** The extension is compared without regard to case, and only the last extension counts:
      an allowed one after other points is accepted... */
  lemma AcceptedExamples()
    ensures AllowedReceipt("comprobante.PDF")
    ensures AllowedReceipt("foto.final.jpeg")
  {
    ExtensionOf("comprobante", "PDF");
    assert "comprobante" + "." + "PDF" == "comprobante.PDF";
    assert Lower("PDF") == "pdf";
    ExtensionOf("foto.final", "jpeg");
    assert "foto.final" + "." + "jpeg" == "foto.final.jpeg";
    assert Lower("jpeg") == "jpeg";
  }

  /** ...and an allowed one before the last point is not. */
  lemma EarlierExtensionIgnored()
    ensures !AllowedReceipt("archivo.pdf.exe")
  {
    ExtensionOf("archivo.pdf", "exe");
    assert "archivo.pdf" + "." + "exe" == "archivo.pdf.exe";
    assert Lower("exe") == "exe";
  }

  /** A name without a point, or with nothing after the last one, is refused. */
  lemma NoExtensionRefused()
    ensures !AllowedReceipt("pdf")
    ensures !AllowedReceipt("archivo.")
  {
    assert Excludes("pdf", '.');
    ExtensionOf("archivo", "");
    assert "archivo" + "." + "" == "archivo.";
    assert Lower("") == "";
  }
}
