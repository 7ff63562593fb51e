# LançAI ingestion core, modelled in Dafny

LançAI turns a batch of Brazilian electronic invoices (NF-e XML files) into
double-entry ledger rows and also loads plain CSV/Excel tables for analysis.
This project models the ingestion core of the Python application:

- the CFOP rule table and the ledger mapping (`MAPPING_RULES`,
  `apply_accounting_rules`), plus the unmapped count and the export columns
  that the Streamlit page derives from the ledger;
- field extraction from one NF-e document with its defaults and its
  all-or-nothing failure (`parse_xml_to_dict`);
- the batch over the temporary folder (`process_xml_files`), the archive
  selection (`find_first_data_file`, `unpack_xml_zip_lancai`,
  `unpack_data_zip`) and the CSV encoding × delimiter retry loop
  (`load_and_validate_csv`);
- the upload dispatcher (`process_uploaded_file`, `clear_session_state`),
  which purges the temporary folder, picks a route from the lower-cased file
  name and commits the session to exactly one mode.

The libraries are replaced by what they return:

- `ET.parse` is replaced by an `XmlFile` value per file name. It is either
  malformed or a `Document` holding the outcome of each of the parser's four
  `find` calls; each of those may be absent.
- `float()` is an oracle `string -> Option<real>`. `None` means the call
  raises.
- pandas is a `TableFile`. It has one outcome per (encoding, delimiter) read,
  plus the outcome of `read_excel`. A table is its column names and its row
  count.
- A zip archive is its entry listing, or `Unreadable`.
- The temporary folder `./temp_data` is a `TempFolder` object. Its `files`
  sequence holds the file names in listing order. The set `locked` names the
  files whose `os.remove` fails.

Files:

| file | module | models |
|---|---|---|
| `text.dfy` | `Wrappers`, `Text` | `Option`; `str.lower`, `str.endswith`, `str.replace(p, '')`, `os.path.join`, `os.path.basename` |
| `accounting.dfy` | `Accounting` | rule table, ledger, unmapped count, export |
| `invoice_parser.dfy` | `InvoiceParser` | `parse_xml_to_dict` |
| `tabular_loader.dfy` | `TabularLoader` | `load_and_validate_csv` |
| `archive.dfy` | `Archive` | temporary folder, unpacking, `process_xml_files` |
| `upload.dfy` | `Upload` | session state, `process_uploaded_file` |

Behaviour kept as the code has it:

- The key removes every "NFe" from the `Id`, not only a leading one.
- A vNF text that is present and non-numeric drops the whole document. It
  does not default to 0.0.
- A CFOP element without text is looked up as the string "None".
- The `< 50` column ceiling of the retry loop never rejects a table, because
  the next branch breaks on any table with more than one column.
  `TabularLoader.ReadCsvWithRetries` keeps both branches and is proved equal
  to a specification that has no ceiling.
- Clean-up does not happen on every path, despite the comment at main.py:169:
  - When no extracted XML parses, `process_xml_files` returns before its
    removal loop, so the XML files stay in the folder until the next upload
    purges it (`Upload.FailedXmlRouteKeepsXml`).
  - When the tabular fallback of a zip extracts a data file that
    `load_and_validate_csv` rejects, the file stays: it is removed only after
    a successful load (`Upload.FailedLoadKeepsDataFile`).
  - A directly uploaded CSV/XLSX file also stays until the next upload.

## Model

| member | source | states |
|---|---|---|
| Accounting.MappingRules | data_handler.py:17-23 | the rule table: CFOP "5102" maps to Clientes / Receita de Vendas and "1101" to Estoque de Matéria-Prima / Fornecedores Nacionais; no other CFOP has a rule |
| Accounting.CfopKey | data_handler.py:205 | the lookup key `str(CFOP_Principal)`: the CFOP text itself, or "None" for a CFOP element without text |
| Accounting.MapInvoice | data_handler.py:204-212 | one row of the ledger: the invoice, both accounts of the rule for str(CFOP) or the sentinel on both sides, and the total as the entry value |
| Accounting.Ledger | data_handler.py:198-214 | the ledger of a table of invoices: `MapInvoice` of each row, in order |
| Accounting.ApplyAccountingRules | data_handler.py:198-214 | the rows built by the column defaults and then the row-wise overwrite are exactly the ledger: one row per invoice, in order, each mapped by its CFOP rule |
| Accounting.SentinelIsNoAccount | data_handler.py:17-23 | no debit or credit account of the rule table equals 'Regra Não Mapeada', so the sentinel tells mapped from unmapped rows |
| Accounting.LedgerRow | data_handler.py:200-214 | ledger row i keeps invoice i unchanged and copies Valor_Total into Valor_Lancamento. When str(CFOP) has a rule, the row takes both accounts from it. Both accounts are the sentinel exactly when no rule exists. The ledger has one row per invoice |
| Accounting.DefaultCodesUnmapped | data_handler.py:205-208 | the parser default "0000" and a text-less CFOP (looked up as "None") map to the sentinel on both sides |
| Accounting.LedgerAppend | data_handler.py:214 | the mapping is row by row: the ledger of a concatenation is the concatenation of the ledgers |
| Accounting.UnmappedCount | main.py:288 | the number of ledger rows whose Conta_Debito is the sentinel |
| Accounting.UnmappedCountOfLedger | main.py:288 | the number of rows whose Conta_Debito is the sentinel equals the number of invoices whose CFOP has no rule, and is at most the number of invoices |
| Accounting.Export | main.py:293 | the selection of the six export columns, in order, from each ledger row |
| Accounting.ExportOfLedger | main.py:293 | the export has one line per invoice, in order, carrying its key, issuer and CFOP, its total as the entry value, and the debit and credit of its rule when the CFOP has one. Each account is the sentinel exactly when the CFOP has no rule |
| Text.RemoveAll | data_handler.py:175 | `str.replace(pat, '')`: a left-to-right scan deleting every non-overlapping occurrence; the result is never longer |
| Text.RemoveAllWithoutOccurrence | data_handler.py:175 | `replace('NFe', '')` leaves a string with no occurrence of "NFe" unchanged |
| Text.RemoveAllNotIdempotent | data_handler.py:175 | one `replace` pass can create a new occurrence: "NNFeFe" becomes "NFe", which a second pass would empty |
| Text.BasenameOfJoin | data_handler.py:192 | the base name of a folder path joined with a plain file name is that file name |
| InvoiceParser.TotalValue | data_handler.py:181-182 | the vNF value: 0.0 for a missing element, a missing text or an empty text, otherwise what `float()` gives, None when it raises |
| InvoiceParser.ParseNFe | data_handler.py:164-196 | the dictionary `parse_xml_to_dict` returns for a file, or None when parsing fails, there is no infNFe, or `float()` raises |
| InvoiceParser.ParseFailsExactly | data_handler.py:164-196 | a document yields None exactly when it does not parse, has no infNFe element, or has a non-empty vNF text that `float()` rejects |
| InvoiceParser.ParseDefaults | data_handler.py:175-192 | field by field, for any document with an infNFe element: a missing Id gives the key "". A missing CFOP gives "0000", a present one its text. A missing issuer gives 'Emitente Desconhecido', a present one its text. A missing, text-less or empty vNF gives 0.0 and never drops the document. XML_Path is the base name of the path |
| InvoiceParser.NonNumericTotalDropsDocument | data_handler.py:181-196 | a present, non-empty, non-numeric vNF drops the whole document rather than defaulting to 0.0 |
| InvoiceParser.ParseRender | data_handler.py:170-193 | parsing the NF-e that carries an invoice gives that invoice back. This needs a key with no "NFe" in it, a total text that reads back as the total, and a path whose base name is XML_Path |
| InvoiceParser.KeyOfStandardId | data_handler.py:175 | a standard Id, "NFe" followed by digits, yields the bare digits as NFe_Chave |
| InvoiceParser.KeyLosesInnerOccurrences | data_handler.py:175 | every "NFe" is removed from the Id, also inside it: "NFe12NFe34" gives "1234" |
| InvoiceParser.SaleInvoiceExample | data_handler.py:164-214 | an NF-e with CFOP 5102 and vNF "1000.00" is parsed and mapped to debit Clientes, credit Receita de Vendas, value 1000.0 |
| TabularLoader.ReadAt | data_handler.py:45-49 | read k of the retry loops: encodings outside (utf-8, latin-1, iso-8859-1), delimiters inside (",", ";"); `ReadAtPair` states that iteration (i, j) is read 2i + j |
| TabularLoader.CsvPick | data_handler.py:45-63 | what `df` holds after the retry loops from a given attempt on: the first read with rows and more than one column, or else the last read that did not raise |
| TabularLoader.LoadTable | data_handler.py:29-83 | the table `load_and_validate_csv` returns: the spreadsheet read for ".xlsx"/".xls", `CsvPick` for ".csv", None otherwise, and None for an empty table |
| TabularLoader.LoadAndValidateCsv | data_handler.py:29-83 | the result is the specification `LoadTable`: ".xlsx"/".xls" read once, ".csv" through the retry loop, any other extension None, and an empty table is never returned |
| TabularLoader.ReadCsvWithRetries | data_handler.py:41-63 | the nested loops, with their `break`/`continue` and the `< 50` ceiling, leave in `df` the first read with rows and more than one column, or else the last read that did not raise |
| TabularLoader.CsvIsNotExcel | data_handler.py:35-39 | a ".csv" path never takes the spreadsheet branch |
| TabularLoader.CsvTakesFirstWideRead | data_handler.py:41-59 | a CSV file loads as the first read, in the order utf-8/latin-1/iso-8859-1 × comma/semicolon, that has rows and more than one column, however many columns it has |
| TabularLoader.CsvFallsBackToLastRead | data_handler.py:45-67 | when no read is wide, the last read that did not raise is kept and is returned only if it is not empty |
| TabularLoader.CsvAllReadsFail | data_handler.py:60-67 | a CSV file none of whose reads succeeds is rejected |
| TabularLoader.LoadedTableComesFromARead | data_handler.py:35-78 | a loaded table is never empty and is the outcome of `read_excel` for a spreadsheet path or of one of the six CSV reads for a ".csv" path |
| TabularLoader.SemicolonLatin1Example | data_handler.py:45-59 | a latin-1, semicolon-separated file loads on the fourth read, after utf-8 fails and latin-1 with commas sees one column |
| Archive.FindFirstDataFile | data_handler.py:85-91 | None exactly when no entry ends in ".csv"/".xlsx" (case-insensitive); otherwise a data entry of the listing |
| Archive.FirstDataFileIsFirst | data_handler.py:87-90 | the entry returned is the first data entry of the listing |
| Archive.XmlNames | data_handler.py:140 | the kept names are exactly the listed names ending in ".xml" in any letter case |
| Archive.TempFolder.Write | data_handler.py:136-137 | writing a file lists a new name last and leaves an existing one in place |
| Archive.TempFolder.ExtractAll | data_handler.py:145 | extracting writes each given entry in turn |
| Archive.TempFolder.TryRemove | data_handler.py:156-161 | the file disappears if it exists and its removal does not fail; nothing else changes |
| Archive.TempFolder.RemoveEach | data_handler.py:245-249 | after the best-effort removal loop the folder holds the files it held, minus the given names whose removal succeeds, in the same order |
| Archive.RemoveAttempt | data_handler.py:118-125 | the `finally` clause of both unpackers (also lines 154-161): the file is removed if it exists and its removal does not fail; every other file stays |
| Archive.XmlUnpack | data_handler.py:132-161 | the result and the folder after `unpack_xml_zip_lancai`: success when the archive opens and lists an ".xml" entry; those entries extracted; the upload written and then removed unless removal fails |
| Archive.DataUnpack | data_handler.py:93-125 | the result and the folder after `unpack_data_zip`: the first data entry, extracted, if the archive opens and has one; the upload written and then removed unless removal fails |
| Archive.UnpackXmlZipLancai | data_handler.py:132-161 | result and folder are `XmlUnpack`: write the upload, extract its XML entries, remove the upload on every path |
| Archive.UnpackDataZip | data_handler.py:93-125 | result and folder are `DataUnpack`: write the upload, extract only its first data entry, remove the upload on every path |
| Archive.XmlUnpackOutcome | data_handler.py:139-161 | success exactly when the archive opens and lists an ".xml" entry. Afterwards the folder holds its old files, plus the XML entries on success. The upload stays only if its removal fails |
| Archive.DataUnpackOutcome | data_handler.py:103-125 | a data file is extracted exactly when the archive opens and lists a data entry, and it is such an entry. Afterwards the folder holds its old files plus that entry. The upload stays only if its removal fails |
| Archive.XmlBatch | data_handler.py:216-241 | what `process_xml_files` returns for a folder: None when no listed ".xml" file parses, otherwise the ledger of the parsed invoices in listing order |
| Archive.ParseAll | data_handler.py:223-230 | `parsed_data` after the parsing loop: the invoices of the listed files that parse, in listing order; files that do not parse are skipped |
| Archive.ParseAllFollowsListing | data_handler.py:227-230 | the parsing loop yields one invoice per file that parses, in listing order: the k-th invoice is what the k-th parsing file parses to, and carries that file's name as XML_Path |
| Archive.XmlBatchOutcome | data_handler.py:218-238 | None exactly when no listed ".xml" file parses (also when there is none). Otherwise there is one ledger row per parsed file, in listing order, holding the invoice that file parses to and its name as XML_Path |
| Archive.ProcessXmlFiles | data_handler.py:216-251 | returns `XmlBatch` of the folder. The XML files are removed (where removal succeeds) only when a ledger is returned. The early returns leave the folder untouched |
| Upload.Session.constructor | main.py:73-82 | a fresh session has mode 'none' and no ledger, table or summary |
| Upload.Session.Clear | main.py:203-207 | clearing sets both tables and the summary to None and the mode to 'none' |
| Upload.Purged | main.py:131-135 | after the purge loop the folder holds only the files whose removal failed |
| Upload.PurgeTempFolder | main.py:131-135 | the purge loop tries to remove every listed file and ignores failures |
| Upload.IsDirectUpload | main.py:137-140 | the lower-cased upload name ends in ".csv" or ".xlsx" |
| Upload.IsZipUpload | main.py:156 | the lower-cased upload name (main.py:137) ends in ".zip" |
| Upload.Dispatch | main.py:124-201 | after any upload the mode is 'lancai' exactly when a ledger is held, and 'data_analysis' exactly when a table is held. At most one of the two is held |
| Upload.ProcessUploadedFile | main.py:124-201 | the session fields and the folder become `Dispatch` of the old folder. The summary is None. The session is consistent |
| Upload.XmlRoute | main.py:158-170 | the ledger and the folder after the XML route of a zip: unpack, then `process_xml_files` only when unpacking succeeded |
| Upload.DataRoute | main.py:172-197 | the outcome of the tabular fallback: 'data_analysis' with the loaded first data entry, which is then removed, or 'none' |
| Upload.ZipRoute | main.py:156-197 | the outcome of a zip upload: 'lancai' when the XML route gives a ledger, otherwise `DataRoute` of the folder the XML route left |
| Upload.ProcessZipUpload | main.py:156-197 | a zip upload ends in `ZipRoute`: the XML route, then the tabular route only if the XML route did not commit |
| Upload.TryXmlZip | main.py:158-170 | commits to 'lancai' exactly when unpacking succeeds and `process_xml_files` returns a ledger, which is stored |
| Upload.TryDataZip | main.py:172-197 | the tabular fallback ends in `DataRoute`: 'data_analysis' with the loaded table, then removal of the extracted file, or 'none' |
| Upload.DirectUploadOutcome | main.py:140-153 | a ".csv"/".xlsx" upload is stored and loaded. The mode is 'data_analysis' with the table exactly when the loader returns one, and 'none' otherwise |
| Upload.OtherUploadOutcome | main.py:199-201 | any other extension ends in mode 'none' with nothing loaded, after the purge |
| Upload.ZipLancaiOutcome | main.py:159-167 | a zip commits to 'lancai' exactly when it lists an ".xml" entry and `process_xml_files` returns a ledger; that ledger is stored |
| Upload.ZipFallbackOutcome | main.py:172-192 | 'data_analysis' from a zip happens only when the XML route did not commit. The archive then has a first data entry, and the table is that entry loaded (the converse is `Upload.ZipFallbackCommits`) |
| Upload.ZipFallbackCommits | main.py:172-182 | when the XML route of a zip does not commit and the archive's first data entry loads, the mode is 'data_analysis' holding that table |
| Upload.FailedLoadKeepsDataFile | main.py:176-195 | when the first data entry of a zip does not load after the XML route failed, the mode is 'none' and the extracted file stays in the folder |
| Upload.ZipUploadRemoved | main.py:156-197 | every path of a zip upload removes the uploaded archive unless its removal fails |
| Upload.EmptyZipLeavesNothing | main.py:156-197 | a zip with neither ".xml" nor data entries, or one that does not open, ends in 'none' with nothing loaded. When its own removal succeeds, the folder is left as the purge left it |
| Upload.LancaiLeavesOnlyLockedXml | main.py:159-167 | after committing to 'lancai' the only XML files left are those whose removal failed |
| Upload.FailedXmlRouteKeepsXml | main.py:168-174 | when the XML route of a zip does not commit, every extracted XML entry is still in the folder, contrary to the comment at main.py:169 |

## Left out

- agent_brain.py is not part of this model. It builds a prompt and calls a hosted language model.
- The Streamlit page is left out: styling, header, sidebar, rendering, `render_agent_query_interface`, progress bars, spinners, messages and `st.rerun`. Every `st.rerun()` in the dispatcher is followed by a `return` (main.py:153, 167, 192), and the model returns at those points.
- File contents, XML parsing, zip decompression, pandas and `float()` are left out. They are the oracle parameters described above, and the libraries themselves are not verified.
- Floating point is left out. Totals are `real`, produced only by the `float()` oracle and copied, never computed with.
- Text encodings are only labels in the retry order.
- `os.listdir` order is arbitrary. The model lists files in creation order.
- The reason a removal fails (a file in use) is not modelled. `locked` says which removals fail.
- Failures of the write of an uploaded file are not modelled. Neither is an exception other than a corrupt archive inside the unpack functions.
- Zip entries are plain file names. Entries in sub-directories, which `extract` places in sub-folders, are not modelled.
- Text.Lower: folds only the ASCII letters, while Python's `str.lower` also folds other letters. Only ASCII extensions are compared with it.
- The directory creation at data_handler.py:12-14 and main.py:84-85 is not modelled. The folder is assumed to exist.
- The DataFrame's other columns and dtypes are not modelled. A row is the `Invoice` record plus the three added columns. A table for analysis is its column names and its row count.
