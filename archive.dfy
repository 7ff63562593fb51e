/** The archive and batch side of data_handler.py: the temporary folder,
    `find_first_data_file`, the two unpack functions and `process_xml_files`.
    The folder is the sequence of its file names in listing order; a removal
    can fail, and the names whose removal fails are given as `locked`. The zip
    library is replaced by the archive's entry listing, and the XML files by
    what each name parses to. */
module Archive {
  import opened Wrappers
  import opened Text
  import opened Accounting
  import opened InvoiceParser

  const TempDir: string := "./temp_data"

  predicate IsXmlName(name: string) {
    EndsWith(Lower(name), ".xml")
  }

  predicate IsDataName(name: string) {
    EndsWith(Lower(name), ".csv") || EndsWith(Lower(name), ".xlsx")
  }

  /** An uploaded zip as `zipfile.ZipFile` sees it: it raises (corrupt or not
      a zip), or it lists its entries. */
  datatype ZipArchive = Unreadable | Zip(entries: seq<string>)

  /** `find_first_data_file`: the first entry whose lower-cased name ends in
      ".csv" or ".xlsx". */
  function FindFirstDataFile(names: seq<string>): (r: Option<string>)
    ensures r.None? <==> forall j :: 0 <= j < |names| ==> !IsDataName(names[j])
    ensures r.Some? ==> IsDataName(r.value) && r.value in names
  {
    if names == [] then None
    else if IsDataName(names[0]) then Some(names[0])
    else
      assert forall j :: 1 <= j < |names| ==> names[j] == names[1..][j - 1];
      FindFirstDataFile(names[1..])
  }

  /** The entry found is the first data entry of the listing. */
  lemma {:induction false} FirstDataFileIsFirst(names: seq<string>, k: nat)
    requires k < |names| && IsDataName(names[k])
    requires forall j :: 0 <= j < k ==> !IsDataName(names[j])
    ensures FindFirstDataFile(names) == Some(names[k])
  {
    if k > 0 {
      assert !IsDataName(names[0]);
      FirstDataFileIsFirst(names[1..], k - 1);
    }
  }

  /** `[f for f in names if f.lower().endswith('.xml')]`. */
  function XmlNames(names: seq<string>): (r: seq<string>)
    ensures |r| <= |names|
    ensures forall x :: x in r <==> x in names && IsXmlName(x)
  {
    if names == [] then []
    else (if IsXmlName(names[0]) then [names[0]] else []) + XmlNames(names[1..])
  }

  /** `files` without the names in `gone`, in the same order. */
  function Drop(files: seq<string>, gone: set<string>): (r: seq<string>)
    ensures forall x :: x in r <==> x in files && x !in gone
  {
    if files == [] then []
    else (if files[0] in gone then [] else [files[0]]) + Drop(files[1..], gone)
  }

  lemma {:induction false} DropTwice(files: seq<string>, a: set<string>, b: set<string>)
    ensures Drop(Drop(files, a), b) == Drop(files, a + b)
  {
    if files != [] {
      DropTwice(files[1..], a, b);
      var rest := Drop(files[1..], a);
      if files[0] in a {
        assert Drop(files, a) == [] + rest == rest;
        assert Drop(files, a + b) == [] + Drop(files[1..], a + b);
      } else {
        assert Drop(files, a) == [files[0]] + rest;
        assert Drop(files, a)[0] == files[0] && Drop(files, a)[1..] == rest;
      }
    }
  }

  lemma {:induction false} DropNothing(files: seq<string>, gone: set<string>)
    requires forall x :: x in gone ==> x !in files
    ensures Drop(files, gone) == files
  {
    if files != [] {
      DropNothing(files[1..], gone);
    }
  }

  /** The names among `names` whose removal succeeds. */
  function Unlocked(names: seq<string>, locked: set<string>): set<string> {
    set x | x in names && x !in locked
  }

  /** Writing a file: a new name is listed last, an existing one is overwritten. */
  function WithFile(files: seq<string>, name: string): (r: seq<string>)
    ensures forall x :: x in r <==> x in files || x == name
  {
    if name in files then files else files + [name]
  }

  function WithFiles(files: seq<string>, names: seq<string>): (r: seq<string>)
    ensures forall x :: x in r <==> x in files || x in names
  {
    if names == [] then files
    else WithFile(WithFiles(files, names[..|names| - 1]), names[|names| - 1])
  }

  /** `if os.path.exists(p): try: os.remove(p) except: pass`. */
  function RemoveAttempt(files: seq<string>, name: string, locked: set<string>): (r: seq<string>)
    ensures forall x :: x in r <==> x in files && (x != name || name in locked)
  {
    if name in files && name !in locked then Drop(files, {name}) else files
  }

  /** Folder state and result of `unpack_xml_zip_lancai`. */
  function XmlUnpack(files: seq<string>, zipName: string, zip: ZipArchive, locked: set<string>): (bool, seq<string>) {
    var written := WithFile(files, zipName);
    if zip.Unreadable? || XmlNames(zip.entries) == [] then (false, RemoveAttempt(written, zipName, locked))
    else (true, RemoveAttempt(WithFiles(written, XmlNames(zip.entries)), zipName, locked))
  }

  /** Folder state and result of `unpack_data_zip`; the result is the name
      of the extracted entry, which the source returns joined to the folder. */
  function DataUnpack(files: seq<string>, zipName: string, zip: ZipArchive, locked: set<string>): (Option<string>, seq<string>) {
    var written := WithFile(files, zipName);
    var first := if zip.Unreadable? then None else FindFirstDataFile(zip.entries);
    if first.None? then (None, RemoveAttempt(written, zipName, locked))
    else (first, RemoveAttempt(WithFile(written, first.value), zipName, locked))
  }

  /** The folder of the uploads. */
  class TempFolder {
    var files: seq<string>

    constructor (existing: seq<string>)
      ensures files == existing
    {
      files := existing;
    }

    /** `open(os.path.join(TEMP_FOLDER, name), "wb")` and a write. */
    method Write(name: string)
      modifies this
      ensures files == WithFile(old(files), name)
    {
      if name !in files {
        files := files + [name];
      }
    }

    /** `extractall(TEMP_FOLDER, members=names)`. */
    method ExtractAll(names: seq<string>)
      modifies this
      ensures files == WithFiles(old(files), names)
    {
      for i := 0 to |names|
        invariant files == WithFiles(old(files), names[..i])
      {
        assert names[..i + 1][..i] == names[..i];
        Write(names[i]);
      }
      assert names[..|names|] == names;
    }

    /** A best-effort removal: the names in `locked` stay. */
    method TryRemove(name: string, locked: set<string>)
      modifies this
      ensures files == RemoveAttempt(old(files), name, locked)
    {
      if name in files && name !in locked {
        files := Drop(files, {name});
      }
    }

    /** `for f in names: try: os.remove(f) except: pass`. */
    method RemoveEach(names: seq<string>, locked: set<string>)
      modifies this
      ensures files == Drop(old(files), Unlocked(names, locked))
      ensures forall x :: x in files <==> x in old(files) && (x !in names || x in locked)
    {
      DropNothing(files, {});
      assert Unlocked(names[..0], locked) == {};
      for i := 0 to |names|
        invariant files == Drop(old(files), Unlocked(names[..i], locked))
      {
        var name := names[i];
        ghost var before := Unlocked(names[..i], locked);
        assert names[..i + 1] == names[..i] + [name];
        if name in locked {
          assert Unlocked(names[..i + 1], locked) == before;
        } else {
          assert Unlocked(names[..i + 1], locked) == before + {name};
          DropTwice(old(files), before, {name});
          if name !in files {
            DropNothing(files, {name});
          }
        }
        TryRemove(name, locked);
      }
      assert names[..|names|] == names;
    }
  }

  /** `unpack_xml_zip_lancai`: write the upload, extract its ".xml" entries,
      and remove the upload in `finally` on every path. */
  method UnpackXmlZipLancai(folder: TempFolder, zipName: string, zip: ZipArchive, locked: set<string>) returns (ok: bool)
    modifies folder
    ensures (ok, folder.files) == XmlUnpack(old(folder.files), zipName, zip, locked)
  {
    folder.Write(zipName);
    match zip {
      case Unreadable =>
        ok := false;
      case Zip(entries) =>
        var xmlFiles := XmlNames(entries);
        if xmlFiles == [] {
          ok := false;
        } else {
          folder.ExtractAll(xmlFiles);
          ok := true;
        }
    }
    folder.TryRemove(zipName, locked);
  }

  /** `unpack_data_zip`: write the upload, extract only its first data entry,
      and remove the upload in `finally` on every path. */
  method UnpackDataZip(folder: TempFolder, zipName: string, zip: ZipArchive, locked: set<string>) returns (first: Option<string>)
    modifies folder
    ensures (first, folder.files) == DataUnpack(old(folder.files), zipName, zip, locked)
  {
    folder.Write(zipName);
    match zip {
      case Unreadable =>
        first := None;
      case Zip(entries) =>
        first := FindFirstDataFile(entries);
        if first.Some? {
          folder.Write(first.value);
        }
    }
    folder.TryRemove(zipName, locked);
  }

  /** `unpack_xml_zip_lancai` reports success exactly when the archive opens
      and lists an ".xml" entry (in any letter case). Afterwards the folder
      holds what it held, plus the extracted XML files on success, and the
      upload itself only if its removal failed. */
  lemma XmlUnpackOutcome(files: seq<string>, zipName: string, zip: ZipArchive, locked: set<string>)
    ensures var (ok, after) := XmlUnpack(files, zipName, zip, locked);
      && (ok <==> zip.Zip? && exists e :: e in zip.entries && IsXmlName(e))
      && forall x :: x in after <==>
           (x in files || x == zipName || (ok && x in zip.entries && IsXmlName(x)))
           && (x != zipName || zipName in locked)
  {
    if zip.Zip? && XmlNames(zip.entries) != [] {
      assert XmlNames(zip.entries)[0] in XmlNames(zip.entries);
    }
  }

  /** `unpack_data_zip` extracts exactly the archive's first data entry, if
      there is one; afterwards the folder holds what it held, plus that entry,
      and the upload itself only if its removal failed. */
  lemma DataUnpackOutcome(files: seq<string>, zipName: string, zip: ZipArchive, locked: set<string>)
    ensures var (first, after) := DataUnpack(files, zipName, zip, locked);
      && (first.Some? <==> zip.Zip? && exists e :: e in zip.entries && IsDataName(e))
      && (first.Some? ==> first.value in zip.entries && IsDataName(first.value))
      && forall x :: x in after <==>
           (x in files || x == zipName || (first.Some? && x == first.value))
           && (x != zipName || zipName in locked)
  {
  }

  /** `parse_xml_to_dict` on a file of the folder. */
  function ParseFile(name: string, xmlOf: string -> XmlFile, toFloat: string -> Option<real>): Option<Invoice> {
    ParseNFe(Join(TempDir, name), xmlOf(name), toFloat)
  }

  /** `parsed_data` after the parsing loop over `names`. */
  function ParseAll(names: seq<string>, xmlOf: string -> XmlFile, toFloat: string -> Option<real>): seq<Invoice> {
    if names == [] then []
    else
      var n := |names| - 1;
      var data := ParseFile(names[n], xmlOf, toFloat);
      ParseAll(names[..n], xmlOf, toFloat) + (if data.Some? then [data.value] else [])
  }

  /** The names among `names` that parse, in order. */
  function ParsedNames(names: seq<string>, xmlOf: string -> XmlFile, toFloat: string -> Option<real>): (r: seq<string>)
    ensures forall x :: x in r <==> x in names && ParseFile(x, xmlOf, toFloat).Some?
  {
    if names == [] then []
    else
      var n := |names| - 1;
      assert forall x :: x in names <==> x in names[..n] || x == names[n];
      ParsedNames(names[..n], xmlOf, toFloat) + (if ParseFile(names[n], xmlOf, toFloat).Some? then [names[n]] else [])
  }

  /** What `process_xml_files` returns for a folder. */
  function XmlBatch(files: seq<string>, xmlOf: string -> XmlFile, toFloat: string -> Option<real>): Option<seq<LedgerEntry>> {
    var parsed := ParseAll(XmlNames(files), xmlOf, toFloat);
    if parsed == [] then None else Some(Ledger(parsed))
  }

  /** The parsing loop yields one invoice per file that parses, in listing
      order: the k-th invoice is what that file parses to, and it carries the
      file's name as XML_Path. */
  lemma {:induction false} ParseAllFollowsListing(names: seq<string>, xmlOf: string -> XmlFile, toFloat: string -> Option<real>)
    requires forall x :: x in names ==> '/' !in x
    ensures |ParseAll(names, xmlOf, toFloat)| == |ParsedNames(names, xmlOf, toFloat)|
    ensures forall k :: 0 <= k < |ParseAll(names, xmlOf, toFloat)| ==>
      ParseAll(names, xmlOf, toFloat)[k].xmlPath == ParsedNames(names, xmlOf, toFloat)[k]
    ensures forall k :: 0 <= k < |ParseAll(names, xmlOf, toFloat)| ==>
      ParseFile(ParsedNames(names, xmlOf, toFloat)[k], xmlOf, toFloat) == Some(ParseAll(names, xmlOf, toFloat)[k])
  {
    if names != [] {
      var n := |names| - 1;
      assert forall x :: x in names[..n] ==> x in names;
      ParseAllFollowsListing(names[..n], xmlOf, toFloat);
      var data := ParseFile(names[n], xmlOf, toFloat);
      if data.Some? {
        assert names[n] in names;
        BasenameOfJoin(TempDir, names[n]);
      }
    }
  }

  /** `process_xml_files` returns `None` exactly when no listed ".xml" file
      parses (in particular when there is none); otherwise its ledger has one
      row per parsed file, in listing order, holding that file's invoice. */
  lemma XmlBatchOutcome(files: seq<string>, xmlOf: string -> XmlFile, toFloat: string -> Option<real>)
    requires forall x :: x in files ==> '/' !in x
    ensures XmlBatch(files, xmlOf, toFloat).None? <==>
      forall x :: x in files && IsXmlName(x) ==> ParseFile(x, xmlOf, toFloat).None?
    ensures XmlBatch(files, xmlOf, toFloat).Some? ==>
      var rows := XmlBatch(files, xmlOf, toFloat).value;
      var parsedNames := ParsedNames(XmlNames(files), xmlOf, toFloat);
      && |rows| == |parsedNames|
      && forall k :: 0 <= k < |rows| ==>
           rows[k].invoice.xmlPath == parsedNames[k] &&
           ParseFile(parsedNames[k], xmlOf, toFloat) == Some(rows[k].invoice)
  {
    var names := XmlNames(files);
    ParseAllFollowsListing(names, xmlOf, toFloat);
    var parsedNames := ParsedNames(names, xmlOf, toFloat);
    if parsedNames != [] {
      assert parsedNames[0] in parsedNames;
    }
    if ParseAll(names, xmlOf, toFloat) != [] {
      LedgerRow(ParseAll(names, xmlOf, toFloat), 0);
    }
    forall k | 0 <= k < |ParseAll(names, xmlOf, toFloat)|
      ensures Ledger(ParseAll(names, xmlOf, toFloat))[k].invoice.xmlPath == parsedNames[k]
      ensures ParseFile(parsedNames[k], xmlOf, toFloat) == Some(Ledger(ParseAll(names, xmlOf, toFloat))[k].invoice)
    {
      LedgerRow(ParseAll(names, xmlOf, toFloat), k);
    }
  }

  /** `process_xml_files`: list the ".xml" files, parse each, keep those that
      parse, map them to ledger rows and only then remove the XML files. The
      early return when nothing parses leaves the folder untouched. */
  method ProcessXmlFiles(folder: TempFolder, xmlOf: string -> XmlFile, toFloat: string -> Option<real>, locked: set<string>)
    returns (rows: Option<seq<LedgerEntry>>)
    modifies folder
    ensures rows == XmlBatch(old(folder.files), xmlOf, toFloat)
    ensures folder.files ==
      if rows.None? then old(folder.files)
      else Drop(old(folder.files), Unlocked(XmlNames(old(folder.files)), locked))
  {
    var xmlFiles := XmlNames(folder.files);
    if xmlFiles == [] {
      return None;
    }
    var parsed: seq<Invoice> := [];
    for i := 0 to |xmlFiles|
      invariant parsed == ParseAll(xmlFiles[..i], xmlOf, toFloat)
    {
      assert xmlFiles[..i + 1][..i] == xmlFiles[..i];
      var data := ParseNFe(Join(TempDir, xmlFiles[i]), xmlOf(xmlFiles[i]), toFloat);
      if data.Some? {
        parsed := parsed + [data.value];
      }
    }
    assert xmlFiles[..|xmlFiles|] == xmlFiles;
    if parsed == [] {
      return None;
    }
    var lancamentos := ApplyAccountingRules(parsed);
    folder.RemoveEach(xmlFiles, locked);
    return Some(lancamentos);
  }
}
