/** The CFOP-to-ledger mapping of data_handler.py: the static rule table
    `MAPPING_RULES`, `apply_accounting_rules`, and the two uses main.py makes
    of the resulting ledger (the unmapped count and the export columns). */
module Accounting {
  import opened Wrappers

  /** One rule of the table: the debit and the credit account. */
  datatype Rule = Rule(debit: string, credit: string)

  /** The sentinel written on both sides when no rule matches. */
  const Unmapped: string := "Regra Não Mapeada"

  const MappingRules: map<string, Rule> := map[
    "5102" := Rule("1.01.01.002 - Clientes", "3.01.01.001 - Receita de Vendas"),
    "1101" := Rule("1.01.03.002 - Estoque de Matéria-Prima", "2.01.01.001 - Fornecedores Nacionais")
  ]

  /** One parsed NF-e, the dictionary `parse_xml_to_dict` returns. `issuer`
      and `cfop` are `None` when the element exists but has no text. */
  datatype Invoice = Invoice(
    key: string,             // NFe_Chave
    issuer: Option<string>,  // Emissor
    cfop: Option<string>,    // CFOP_Principal
    total: real,             // Valor_Total
    xmlPath: string)         // XML_Path

  /** A ledger row: the invoice's columns unchanged plus Conta_Debito,
      Conta_Credito and Valor_Lancamento. */
  datatype LedgerEntry = LedgerEntry(invoice: Invoice, debit: string, credit: string, amount: real)

  /** `str(row['CFOP_Principal'])`: a missing text prints as "None". */
  function CfopKey(cfop: Option<string>): string {
    match cfop
    case Some(code) => code
    case None => "None"
  }

  predicate HasRule(inv: Invoice) {
    CfopKey(inv.cfop) in MappingRules
  }

  /** `map_cfop_to_accounts` applied to a row that already carries the
      default columns. */
  function MapInvoice(inv: Invoice): LedgerEntry {
    var key := CfopKey(inv.cfop);
    if key in MappingRules then LedgerEntry(inv, MappingRules[key].debit, MappingRules[key].credit, inv.total)
    else LedgerEntry(inv, Unmapped, Unmapped, inv.total)
  }

  /** The ledger `apply_accounting_rules` returns for a table of invoices. */
  function Ledger(parsed: seq<Invoice>): seq<LedgerEntry> {
    seq(|parsed|, i requires 0 <= i < |parsed| => MapInvoice(parsed[i]))
  }

  /** The default columns assigned before the row-wise rule application. */
  function DefaultRow(inv: Invoice): LedgerEntry {
    LedgerEntry(inv, Unmapped, Unmapped, inv.total)
  }

  /** `apply_accounting_rules`: first the three column assignments, then the
      row-by-row overwrite of both accounts where the CFOP has a rule. */
  method ApplyAccountingRules(parsed: seq<Invoice>) returns (rows: seq<LedgerEntry>)
    ensures rows == Ledger(parsed)
  {
    var table := new LedgerEntry[|parsed|](i requires 0 <= i < |parsed| => DefaultRow(parsed[i]));
    for i := 0 to table.Length
      invariant forall k :: 0 <= k < i ==> table[k] == MapInvoice(parsed[k])
      invariant forall k :: i <= k < table.Length ==> table[k] == DefaultRow(parsed[k])
    {
      var cfop := CfopKey(table[i].invoice.cfop);
      if cfop in MappingRules {
        var rule := MappingRules[cfop];
        table[i] := table[i].(debit := rule.debit, credit := rule.credit);
      }
    }
    rows := table[..];
  }

  /** The sentinel is not an account of any rule, so it tells mapped and
      unmapped rows apart. */
  lemma SentinelIsNoAccount()
    ensures forall code :: code in MappingRules ==>
      MappingRules[code].debit != Unmapped && MappingRules[code].credit != Unmapped
  {
    assert MappingRules.Keys == {"5102", "1101"};
    assert "1.01.01.002 - Clientes"[0] != Unmapped[0];
    assert "1.01.03.002 - Estoque de Matéria-Prima"[0] != Unmapped[0];
    assert "3.01.01.001 - Receita de Vendas"[0] != Unmapped[0];
    assert "2.01.01.001 - Fornecedores Nacionais"[0] != Unmapped[0];
  }

  /** Each ledger row keeps its invoice, copies Valor_Total into
      Valor_Lancamento, takes both accounts from the rule of its CFOP when
      there is one, and carries the sentinel on both sides exactly when there
      is none. The ledger has one row per invoice, in the same order. */
  lemma LedgerRow(parsed: seq<Invoice>, i: int)
    requires 0 <= i < |parsed|
    ensures |Ledger(parsed)| == |parsed|
    ensures Ledger(parsed)[i].invoice == parsed[i]
    ensures Ledger(parsed)[i].amount == parsed[i].total
    ensures HasRule(parsed[i]) ==>
      Ledger(parsed)[i].debit == MappingRules[CfopKey(parsed[i].cfop)].debit &&
      Ledger(parsed)[i].credit == MappingRules[CfopKey(parsed[i].cfop)].credit
    ensures Ledger(parsed)[i].debit == Unmapped <==> !HasRule(parsed[i])
    ensures Ledger(parsed)[i].credit == Unmapped <==> !HasRule(parsed[i])
  {
    SentinelIsNoAccount();
  }

  /** The parser's default CFOP "0000", and a CFOP element without text
      (looked up as "None"), have no rule. */
  lemma DefaultCodesUnmapped(inv: Invoice)
    requires inv.cfop == Some("0000") || inv.cfop.None?
    ensures MapInvoice(inv).debit == Unmapped && MapInvoice(inv).credit == Unmapped
  {
    assert "0000" !in MappingRules && "None" !in MappingRules;
  }

  /** The ledger of a concatenation is the concatenation of the ledgers. */
  lemma LedgerAppend(a: seq<Invoice>, b: seq<Invoice>)
    ensures Ledger(a + b) == Ledger(a) + Ledger(b)
  {
  }

  /** main.py: `len(df[df['Conta_Debito'] == 'Regra Não Mapeada'])`. */
  function UnmappedCount(rows: seq<LedgerEntry>): nat {
    if rows == [] then 0
    else (if rows[0].debit == Unmapped then 1 else 0) + UnmappedCount(rows[1..])
  }

  /** The number of invoices whose CFOP has no rule. */
  function CountWithoutRule(parsed: seq<Invoice>): nat {
    if parsed == [] then 0
    else (if HasRule(parsed[0]) then 0 else 1) + CountWithoutRule(parsed[1..])
  }

  /** The reported unmapped count is exactly the number of invoices whose
      CFOP is missing from the rule table. */
  lemma {:induction false} UnmappedCountOfLedger(parsed: seq<Invoice>)
    ensures UnmappedCount(Ledger(parsed)) == CountWithoutRule(parsed)
    ensures UnmappedCount(Ledger(parsed)) <= |parsed|
  {
    if parsed != [] {
      LedgerRow(parsed, 0);
      assert Ledger(parsed)[1..] == Ledger(parsed[1..]);
      UnmappedCountOfLedger(parsed[1..]);
    }
  }

  /** One exported line: the six export columns of a ledger row, in order. */
  datatype ExportRow = ExportRow(
    key: string,             // NFe_Chave
    issuer: Option<string>,  // Emissor
    cfop: Option<string>,    // CFOP_Principal
    debit: string,           // Conta_Debito
    credit: string,          // Conta_Credito
    amount: real)            // Valor_Lancamento

  function Export(rows: seq<LedgerEntry>): seq<ExportRow> {
    seq(|rows|, i requires 0 <= i < |rows| =>
      ExportRow(rows[i].invoice.key, rows[i].invoice.issuer, rows[i].invoice.cfop,
                rows[i].debit, rows[i].credit, rows[i].amount))
  }

  /** Exporting the ledger of a batch gives one line per invoice, in order,
      with the invoice's key, issuer and CFOP, the two accounts of its rule
      (or the sentinel on both sides), and its total as the entry value. */
  lemma ExportOfLedger(parsed: seq<Invoice>, i: int)
    requires 0 <= i < |parsed|
    ensures |Export(Ledger(parsed))| == |parsed|
    ensures var line := Export(Ledger(parsed))[i];
      line.key == parsed[i].key && line.issuer == parsed[i].issuer &&
      line.cfop == parsed[i].cfop && line.amount == parsed[i].total &&
      line.debit == MapInvoice(parsed[i]).debit && line.credit == MapInvoice(parsed[i]).credit &&
      (HasRule(parsed[i]) ==>
        line.debit == MappingRules[CfopKey(parsed[i].cfop)].debit &&
        line.credit == MappingRules[CfopKey(parsed[i].cfop)].credit) &&
      (line.debit == Unmapped <==> !HasRule(parsed[i])) &&
      (line.credit == Unmapped <==> !HasRule(parsed[i]))
  {
    LedgerRow(parsed, i);
  }
}
