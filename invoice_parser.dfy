/** `parse_xml_to_dict` of data_handler.py: field extraction from one NF-e
    document, with its defaults and its all-or-nothing failure policy. The XML
    library is replaced by the result of its four `find` calls, and `float()`
    by an oracle. */
module InvoiceParser {
  import opened Wrappers
  import opened Text
  import opened Accounting

  /** What `root.find(...)` yields: no element, or an element whose `.text`
      is `None` or a string. */
  datatype Element = Absent | Present(text: Option<string>)

  /** The `infNFe` element; `id` is its `Id` attribute, if any. */
  datatype InfNFe = InfNFe(id: Option<string>)

  /** The parts of an NF-e tree the parser looks at: `.//nfe:infNFe`,
      `.//nfe:det/nfe:prod/nfe:CFOP` (first item only),
      `.//nfe:ICMSTot/nfe:vNF` and `.//nfe:emit/nfe:xNome`. */
  datatype Document = Document(infNFe: Option<InfNFe>, cfop: Element, vNF: Element, issuerName: Element)

  /** A file as `ET.parse` sees it: it raises, or it yields a tree. */
  datatype XmlFile = Malformed | Wellformed(doc: Document)

  const DefaultCfop: string := "0000"
  const UnknownIssuer: string := "Emitente Desconhecido"
  const KeyPrefix: string := "NFe"

  /** `float(v.text) if v is not None and v.text else 0.0`; `None` stands for
      the exception `float()` raises on a non-numeric text. */
  function TotalValue(vNF: Element, toFloat: string -> Option<real>): Option<real> {
    match vNF
    case Absent => Some(0.0)
    case Present(None) => Some(0.0)
    case Present(Some(text)) => if text == "" then Some(0.0) else toFloat(text)
  }

  function ElementText(e: Element, default: string): Option<string> {
    match e
    case Absent => Some(default)
    case Present(text) => text
  }

  /** `parse_xml_to_dict(path)` for a file whose content is `file`. */
  function ParseNFe(path: string, file: XmlFile, toFloat: string -> Option<real>): Option<Invoice> {
    match file
    case Malformed => None
    case Wellformed(doc) =>
      match doc.infNFe
      case None => None
      case Some(inf) =>
        var key := RemoveAll(inf.id.GetOr(""), KeyPrefix);
        var cfop := ElementText(doc.cfop, DefaultCfop);
        match TotalValue(doc.vNF, toFloat)
        case None => None
        case Some(total) =>
          Some(Invoice(key, ElementText(doc.issuerName, UnknownIssuer), cfop, total, Basename(path)))
  }

  /** A document is dropped exactly when it does not parse as XML, has no
      `infNFe` element, or has a non-empty vNF text that is not a number. */
  lemma ParseFailsExactly(path: string, file: XmlFile, toFloat: string -> Option<real>)
    ensures ParseNFe(path, file, toFloat).None? <==>
      (|| file.Malformed?
       || file.doc.infNFe.None?
       || (file.doc.vNF.Present? && file.doc.vNF.text.Some? && file.doc.vNF.text.value != ""
           && toFloat(file.doc.vNF.text.value).None?))
  {
  }

  /** The defaults, field by field, for any document with an `infNFe`
      element: no `Id` gives the empty key, no CFOP element gives "0000", no
      issuer element gives "Emitente Desconhecido", a vNF that is absent, has
      no text or has an empty text gives 0.0 and never drops the document,
      and XML_Path is the file's base name. A present element gives its text. */
  lemma ParseDefaults(path: string, doc: Document, toFloat: string -> Option<real>)
    requires doc.infNFe.Some?
    ensures var r := ParseNFe(path, Wellformed(doc), toFloat);
      && ((doc.vNF.Absent? || doc.vNF == Present(None) || doc.vNF == Present(Some(""))) ==>
            r.Some? && r.value.total == 0.0)
      && (r.Some? ==>
            && (doc.infNFe.value.id.None? ==> r.value.key == "")
            && (doc.cfop.Absent? ==> r.value.cfop == Some(DefaultCfop))
            && (doc.cfop.Present? ==> r.value.cfop == doc.cfop.text)
            && (doc.issuerName.Absent? ==> r.value.issuer == Some(UnknownIssuer))
            && (doc.issuerName.Present? ==> r.value.issuer == doc.issuerName.text)
            && r.value.xmlPath == Basename(path))
  {
    assert RemoveAll("", KeyPrefix) == "";
  }

  /** A non-numeric total drops the whole document, whatever else it holds;
      it does not fall back to 0.0. */
  lemma NonNumericTotalDropsDocument(path: string, doc: Document, text: string, toFloat: string -> Option<real>)
    requires doc.vNF == Present(Some(text)) && text != "" && toFloat(text).None?
    ensures ParseNFe(path, Wellformed(doc), toFloat).None?
  {
  }

  /** The document a well-formed NF-e carries for a given invoice record:
      the key behind the "NFe" prefix, and the total written as `totalText`. */
  function Render(inv: Invoice, totalText: string): Document {
    Document(Some(InfNFe(Some(KeyPrefix + inv.key))), Present(inv.cfop),
             Present(Some(totalText)), Present(inv.issuer))
  }

  /** Parsing the rendering of an invoice gives the invoice back, provided its
      key contains no "NFe", its total text reads back as its total and its
      path is the file's base name. */
  lemma ParseRender(path: string, inv: Invoice, totalText: string, toFloat: string -> Option<real>)
    requires !Occurs(inv.key, KeyPrefix)
    requires totalText != "" && toFloat(totalText) == Some(inv.total)
    requires inv.xmlPath == Basename(path)
    ensures ParseNFe(path, Wellformed(Render(inv, totalText)), toFloat) == Some(inv)
  {
    RemoveAllLeading(KeyPrefix, inv.key);
    RemoveAllWithoutOccurrence(inv.key, KeyPrefix);
  }

  predicate IsDigit(c: char) {
    '0' <= c <= '9'
  }

  /** A standard NF-e `Id` ("NFe" followed by the digits of the access key)
      yields the bare digits as NFe_Chave. */
  lemma KeyOfStandardId(digits: string)
    requires forall i :: 0 <= i < |digits| ==> IsDigit(digits[i])
    ensures RemoveAll(KeyPrefix + digits, KeyPrefix) == digits
  {
    RemoveAllLeading(KeyPrefix, digits);
    forall i | 0 <= i && i + 3 <= |digits|
      ensures !OccursAt(digits, KeyPrefix, i)
    {
      assert digits[i..i + 3][0] == digits[i] && IsDigit(digits[i]);
    }
    RemoveAllWithoutOccurrence(digits, KeyPrefix);
  }

  /** Every "NFe" in the `Id` is removed, not only the prefix. */
  lemma KeyLosesInnerOccurrences()
    ensures RemoveAll("NFe12NFe34", KeyPrefix) == "1234"
  {
    RemoveAllLeading(KeyPrefix, "12NFe34");
    assert "12NFe34"[..3][0] != KeyPrefix[0];
    assert "12NFe34"[1..] == "2NFe34";
    assert "2NFe34"[..3][0] != KeyPrefix[0];
    assert "2NFe34"[1..] == "NFe34";
    assert "NFe34" == KeyPrefix + "34";
    RemoveAllLeading(KeyPrefix, "34");
  }

  /** A sale invoice with CFOP 5102 and total 1000.0 is mapped to the
      customers account on the debit side and sales revenue on the credit side,
      with 1000.0 as the entry value. */
  lemma SaleInvoiceExample(path: string, key: string, issuer: string, toFloat: string -> Option<real>)
    requires toFloat("1000.00") == Some(1000.0)
    ensures var doc := Document(Some(InfNFe(Some("NFe" + key))), Present(Some("5102")),
                                Present(Some("1000.00")), Present(Some(issuer)));
      var parsed := ParseNFe(path, Wellformed(doc), toFloat);
      && parsed.Some?
      && parsed.value.cfop == Some("5102") && parsed.value.total == 1000.0
      && MapInvoice(parsed.value).debit == "1.01.01.002 - Clientes"
      && MapInvoice(parsed.value).credit == "3.01.01.001 - Receita de Vendas"
      && MapInvoice(parsed.value).amount == 1000.0
  {
  }
}
