/** `load_and_validate_csv` of data_handler.py: a spreadsheet is read once;
    a CSV file is read with every encoding and delimiter in turn until one read
    gives a non-empty table with more than one column. pandas is replaced by
    the outcome of each read call. */
module TabularLoader {
  import opened Wrappers
  import opened Text

  /** Encodings are only labels in the retry order. */
  datatype Encoding = Utf8 | Latin1 | Iso8859_1
  datatype Delimiter = Comma | Semicolon

  const Encodings: seq<Encoding> := [Utf8, Latin1, Iso8859_1]
  const Delimiters: seq<Delimiter> := [Comma, Semicolon]

  /** The number of (encoding, delimiter) combinations tried. */
  const AttemptCount: nat := 6

  /** A DataFrame, by its column names and its number of rows. */
  datatype Table = Table(columns: seq<string>, rows: nat)

  /** `df.empty`: no rows or no columns. */
  predicate Empty(t: Table) {
    t.rows == 0 || |t.columns| == 0
  }

  /** What the loop stops at: a non-empty table with more than one column. */
  predicate Wide(t: Table) {
    !Empty(t) && |t.columns| > 1
  }

  /** How a file reads: `csv(e, d)` is the outcome of
      `pd.read_csv(path, encoding=e, sep=d)` and `excel` that of
      `pd.read_excel(path)`; `None` stands for a raised exception. */
  datatype TableFile = TableFile(csv: (Encoding, Delimiter) -> Option<Table>, excel: Option<Table>)

  /** The outcome of the k-th read of the nested loops: encodings outside,
      delimiters inside. */
  function ReadAt(read: (Encoding, Delimiter) -> Option<Table>, k: nat): Option<Table>
    requires k < AttemptCount
  {
    var i := if k < 2 then 0 else if k < 4 then 1 else 2;
    read(Encodings[i], Delimiters[k - 2 * i])
  }

  /** The value `df` holds after the loops, starting at attempt `k` with
      `last` as the most recent successful read: the first wide read, or else
      the last read that did not raise. */
  function CsvPick(k: nat, read: (Encoding, Delimiter) -> Option<Table>, last: Option<Table>): Option<Table>
    requires k <= AttemptCount
    decreases AttemptCount - k
  {
    if k == AttemptCount then last
    else match ReadAt(read, k)
      case None => CsvPick(k + 1, read, last)
      case Some(t) => if Wide(t) then Some(t) else CsvPick(k + 1, read, Some(t))
  }

  predicate IsExcelPath(path: string) {
    EndsWith(Lower(path), ".xlsx") || EndsWith(Lower(path), ".xls")
  }

  predicate IsCsvPath(path: string) {
    EndsWith(Lower(path), ".csv")
  }

  /** The table `load_and_validate_csv(path)` returns, or `None`. */
  function LoadTable(path: string, file: TableFile): Option<Table> {
    var df :=
      if IsExcelPath(path) then file.excel
      else if IsCsvPath(path) then CsvPick(0, file.csv, None)
      else None;
    if df.Some? && !Empty(df.value) then df else None
  }

  /** The (i, j) iteration of the nested loops is the read numbered 2i + j. */
  lemma ReadAtPair(read: (Encoding, Delimiter) -> Option<Table>, i: nat, j: nat)
    requires i < |Encodings| && j < |Delimiters|
    ensures 2 * i + j < AttemptCount
    ensures ReadAt(read, 2 * i + j) == read(Encodings[i], Delimiters[j])
  {
    if i == 0 {
      assert 2 * i + j == j;
    } else if i == 1 {
      assert 2 * i + j == 2 + j;
    } else {
      assert 2 * i + j == 4 + j;
    }
  }

  /** `load_and_validate_csv`: the extension dispatch and the emptiness
      checks around the CSV retry loops. A failed `read_excel` is caught by
      the outer `except`. The final emptiness check only matters for a
      spreadsheet: a CSV table that reaches it has passed the same check
      already, so that path returns directly. */
  method LoadAndValidateCsv(path: string, file: TableFile) returns (r: Option<Table>)
    ensures r == LoadTable(path, file)
  {
    var lower := Lower(path);
    if EndsWith(lower, ".xlsx") || EndsWith(lower, ".xls") {
      var df := file.excel;
      if df.None? || Empty(df.value) {
        return None;
      }
      return df;
    } else if EndsWith(lower, ".csv") {
      var df := ReadCsvWithRetries(file.csv);
      if df.None? || Empty(df.value) {
        return None;
      }
      return df;
    }
    return None;
  }

  /** The nested retry loops of `load_and_validate_csv`, with their `break`
      and `continue`. The `< 50` column ceiling is kept as written; the ensures
      shows it never rejects a table, since a wider one breaks out as well. */
  method ReadCsvWithRetries(read: (Encoding, Delimiter) -> Option<Table>) returns (df: Option<Table>)
    ensures df == CsvPick(0, read, None)
  {
    df := None;
    ghost var target := CsvPick(0, read, None);
    var i := 0;
    while i < |Encodings|
      invariant 0 <= i <= |Encodings|
      invariant CsvPick(2 * i, read, df) == target
      invariant df.Some? ==> !Wide(df.value)
    {
      var j := 0;
      while j < |Delimiters|
        invariant 0 <= j <= |Delimiters|
        invariant CsvPick(2 * i + j, read, df) == target
        invariant df.Some? ==> !Wide(df.value)
      {
        var attempt := read(Encodings[i], Delimiters[j]);
        ReadAtPair(read, i, j);
        PickStep(2 * i + j, read, df, attempt);
        if attempt.Some? {
          df := attempt;
          var t := attempt.value;
          if !Empty(t) {
            if |t.columns| > 1 && |t.columns| < 50 {
              break;
            } else if |t.columns| == 1 && Delimiters[j] == Comma {
              j := j + 1;
              continue;
            } else if |t.columns| > 1 {
              break;
            }
          }
        }
        j := j + 1;
      }
      if df.Some? && !Empty(df.value) && |df.value.columns| > 1 {
        break;
      }
      i := i + 1;
    }
  }

  /** One step of the loops: a wide read ends the search, any other
      successful read becomes the one kept. */
  lemma PickStep(k: nat, read: (Encoding, Delimiter) -> Option<Table>, last: Option<Table>, a: Option<Table>)
    requires k < AttemptCount && a == ReadAt(read, k)
    ensures a.Some? && Wide(a.value) ==> CsvPick(k, read, last) == a
    ensures a.Some? && !Wide(a.value) ==> CsvPick(k, read, last) == CsvPick(k + 1, read, a)
    ensures a.None? ==> CsvPick(k, read, last) == CsvPick(k + 1, read, last)
  {
  }

  predicate WideAt(read: (Encoding, Delimiter) -> Option<Table>, k: nat)
    requires k < AttemptCount
  {
    ReadAt(read, k).Some? && Wide(ReadAt(read, k).value)
  }

  lemma {:induction false} PickFirstWide(k0: nat, k: nat, read: (Encoding, Delimiter) -> Option<Table>, last: Option<Table>)
    requires k0 <= k < AttemptCount
    requires WideAt(read, k)
    requires forall j :: k0 <= j < k ==> !WideAt(read, j)
    ensures CsvPick(k0, read, last) == ReadAt(read, k)
    decreases k - k0
  {
    if k0 < k {
      assert !WideAt(read, k0);
      match ReadAt(read, k0)
      case None => PickFirstWide(k0 + 1, k, read, last);
      case Some(t) => PickFirstWide(k0 + 1, k, read, Some(t));
    }
  }

  lemma {:induction false} PickLastRead(k0: nat, k: nat, read: (Encoding, Delimiter) -> Option<Table>, last: Option<Table>)
    requires k0 <= k < AttemptCount
    requires ReadAt(read, k).Some?
    requires forall j :: k0 <= j < AttemptCount ==> !WideAt(read, j)
    requires forall j :: k < j < AttemptCount ==> ReadAt(read, j).None?
    ensures CsvPick(k0, read, last) == ReadAt(read, k)
    decreases AttemptCount - k0
  {
    assert !WideAt(read, k0);
    if k0 == k {
      PickNoRead(k0 + 1, read, ReadAt(read, k));
    } else {
      match ReadAt(read, k0)
      case None => PickLastRead(k0 + 1, k, read, last);
      case Some(t) => PickLastRead(k0 + 1, k, read, Some(t));
    }
  }

  lemma {:induction false} PickNoRead(k0: nat, read: (Encoding, Delimiter) -> Option<Table>, last: Option<Table>)
    requires k0 <= AttemptCount
    requires forall j :: k0 <= j < AttemptCount ==> ReadAt(read, j).None?
    ensures CsvPick(k0, read, last) == last
    decreases AttemptCount - k0
  {
    if k0 < AttemptCount {
      PickNoRead(k0 + 1, read, last);
    }
  }

  lemma {:induction false} PickFromRead(k0: nat, read: (Encoding, Delimiter) -> Option<Table>, last: Option<Table>)
    requires k0 <= AttemptCount
    ensures var df := CsvPick(k0, read, last);
      df == last || exists k :: k0 <= k < AttemptCount && ReadAt(read, k) == df
    decreases AttemptCount - k0
  {
    if k0 < AttemptCount {
      match ReadAt(read, k0)
      case None => PickFromRead(k0 + 1, read, last);
      case Some(t) =>
        if !Wide(t) {
          PickFromRead(k0 + 1, read, Some(t));
        }
    }
  }

  lemma CsvIsNotExcel(path: string)
    requires IsCsvPath(path)
    ensures !IsExcelPath(path)
  {
    EndsWithExclusive(Lower(path), ".csv", ".xlsx");
    EndsWithExclusive(Lower(path), ".csv", ".xls");
  }

  /** A CSV file is loaded from the first combination, in the order
      utf-8/latin-1/iso-8859-1 times comma/semicolon, that reads as a non-empty
      table with more than one column; however many columns it has. */
  lemma CsvTakesFirstWideRead(path: string, file: TableFile, k: nat)
    requires IsCsvPath(path) && k < AttemptCount
    requires WideAt(file.csv, k)
    requires forall j :: 0 <= j < k ==> !WideAt(file.csv, j)
    ensures LoadTable(path, file) == ReadAt(file.csv, k)
  {
    CsvIsNotExcel(path);
    PickFirstWide(0, k, file.csv, None);
  }

  /** When no combination gives such a table, the last read that did not
      raise is kept, and returned only if it is not empty. */
  lemma CsvFallsBackToLastRead(path: string, file: TableFile, k: nat)
    requires IsCsvPath(path) && k < AttemptCount
    requires forall j :: 0 <= j < AttemptCount ==> !WideAt(file.csv, j)
    requires ReadAt(file.csv, k).Some?
    requires forall j :: k < j < AttemptCount ==> ReadAt(file.csv, j).None?
    ensures LoadTable(path, file) ==
      if Empty(ReadAt(file.csv, k).value) then None else ReadAt(file.csv, k)
  {
    CsvIsNotExcel(path);
    PickLastRead(0, k, file.csv, None);
  }

  /** A CSV file none of whose reads succeeds is rejected. */
  lemma CsvAllReadsFail(path: string, file: TableFile)
    requires IsCsvPath(path)
    requires forall j :: 0 <= j < AttemptCount ==> ReadAt(file.csv, j).None?
    ensures LoadTable(path, file).None?
  {
    CsvIsNotExcel(path);
    PickNoRead(0, file.csv, None);
  }

  /** A loaded table is never empty and is the outcome of one of the reads
      the file allows. */
  lemma LoadedTableComesFromARead(path: string, file: TableFile)
    requires LoadTable(path, file).Some?
    ensures var t := LoadTable(path, file).value;
      && !Empty(t)
      && (|| (IsExcelPath(path) && file.excel == Some(t))
          || (IsCsvPath(path) && exists k :: 0 <= k < AttemptCount && ReadAt(file.csv, k) == Some(t)))
  {
    PickFromRead(0, file.csv, None);
  }

  /** A semicolon-separated latin-1 file with five columns and three rows:
      utf-8 fails to decode, latin-1 with commas sees a single column, and
      latin-1 with semicolons gives the table. */
  lemma SemicolonLatin1Example(path: string, header: seq<string>)
    requires IsCsvPath(path) && |header| == 5
    ensures var read := (e: Encoding, d: Delimiter) =>
        if e == Utf8 then None
        else if d == Comma then Some(Table(["a;b;c;d;e"], 3))
        else Some(Table(header, 3));
      LoadTable(path, TableFile(read, None)) == Some(Table(header, 3))
  {
    var read := (e: Encoding, d: Delimiter) =>
        if e == Utf8 then None
        else if d == Comma then Some(Table(["a;b;c;d;e"], 3))
        else Some(Table(header, 3));
    assert !WideAt(read, 0) && !WideAt(read, 1) && !WideAt(read, 2);
    CsvTakesFirstWideRead(path, TableFile(read, None), 3);
  }
}
