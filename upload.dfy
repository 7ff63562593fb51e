/** The upload dispatcher of main.py: the session record, its reset
    `clear_session_state`, and `process_uploaded_file`, which purges the
    temporary folder and commits to exactly one mode. What the loaders see in
    each file is given by a `Disk`. */
module Upload {
  import opened Wrappers
  import opened Text
  import opened Accounting
  import opened InvoiceParser
  import opened TabularLoader
  import opened Archive

  /** `st.session_state['mode']`: 'none', 'lancai' or 'data_analysis'. */
  datatype Mode = NoMode | Lancai | DataAnalysis

  /** The four session fields the dispatcher touches. */
  class Session {
    var mode: Mode
    var ledger: Option<seq<LedgerEntry>>   // df_lancamentos
    var dataTable: Option<Table>           // df_data_analysis
    var initialSummary: Option<string>     // initial_summary

    /** At most one table is loaded, and it is the one the mode shows. */
    predicate Consistent()
      reads this
    {
      (mode == Lancai <==> ledger.Some?) && (mode == DataAnalysis <==> dataTable.Some?)
    }

    /** `initialize_session_state` on a fresh session. */
    constructor ()
      ensures mode == NoMode && ledger.None? && dataTable.None? && initialSummary.None?
      ensures Consistent()
    {
      mode, ledger, dataTable, initialSummary := NoMode, None, None, None;
    }

    /** `clear_session_state`. */
    method Clear()
      modifies this
      ensures mode == NoMode && ledger.None? && dataTable.None? && initialSummary.None?
      ensures Consistent()
    {
      dataTable := None;
      ledger := None;
      mode := NoMode;
      initialSummary := None;
    }
  }

  /** What the files read as: `xml(n)` for `ET.parse`, `table(n)` for pandas,
      and `toFloat` for Python's `float()` on a text. */
  datatype Disk = Disk(xml: string -> XmlFile, table: string -> TableFile, toFloat: string -> Option<real>)

  /** The uploaded file: its name, and what its bytes are as a zip archive. */
  datatype UploadedFile = UploadedFile(name: string, zip: ZipArchive)

  /** The session fields and the folder after an upload. */
  datatype Outcome = Outcome(mode: Mode, ledger: Option<seq<LedgerEntry>>, dataTable: Option<Table>, files: seq<string>)

  /** The folder after the purge loop: only the files whose removal failed. */
  function Purged(files: seq<string>, locked: set<string>): (r: seq<string>)
    ensures forall x :: x in r <==> x in files && x in locked
  {
    Drop(files, Unlocked(files, locked))
  }

  predicate IsDirectUpload(name: string) {
    EndsWith(Lower(name), ".csv") || EndsWith(Lower(name), ".xlsx")
  }

  predicate IsZipUpload(name: string) {
    EndsWith(Lower(name), ".zip")
  }

  /** The XML route of a zip: unpack, then `process_xml_files` if unpacking
      reported success. Gives the rows and the folder afterwards. */
  function XmlRoute(files: seq<string>, upload: UploadedFile, disk: Disk, locked: set<string>): (Option<seq<LedgerEntry>>, seq<string>) {
    var (ok, unpacked) := XmlUnpack(files, upload.name, upload.zip, locked);
    if !ok then (None, unpacked)
    else
      var rows := XmlBatch(unpacked, disk.xml, disk.toFloat);
      if rows.None? then (None, unpacked)
      else (rows, Drop(unpacked, Unlocked(XmlNames(unpacked), locked)))
  }

  /** The tabular fallback of a zip: unpack the first data entry, load it,
      and remove it again once loaded. */
  function DataRoute(files: seq<string>, upload: UploadedFile, disk: Disk, locked: set<string>): Outcome {
    var (first, afterData) := DataUnpack(files, upload.name, upload.zip, locked);
    if first.None? then Outcome(NoMode, None, None, afterData)
    else
      var df := LoadTable(Join(TempDir, first.value), disk.table(first.value));
      if df.None? then Outcome(NoMode, None, None, afterData)
      else Outcome(DataAnalysis, None, df, RemoveAttempt(afterData, first.value, locked))
  }

  /** The XML route after a successful unpack is the batch over the
      unpacked folder. */
  lemma XmlRouteSteps(files: seq<string>, upload: UploadedFile, disk: Disk, locked: set<string>,
                      mid: seq<string>, rows: Option<seq<LedgerEntry>>, after: seq<string>)
    requires XmlUnpack(files, upload.name, upload.zip, locked) == (true, mid)
    requires rows == XmlBatch(mid, disk.xml, disk.toFloat)
    requires after == if rows.None? then mid else Drop(mid, Unlocked(XmlNames(mid), locked))
    ensures XmlRoute(files, upload, disk, locked) == (rows, after)
  {
  }

  /** The zip branch of `process_uploaded_file`. */
  function ZipRoute(files: seq<string>, upload: UploadedFile, disk: Disk, locked: set<string>): Outcome {
    var (rows, afterXml) := XmlRoute(files, upload, disk, locked);
    if rows.Some? then Outcome(Lancai, rows, None, afterXml)
    else DataRoute(afterXml, upload, disk, locked)
  }

  /** What `process_uploaded_file` leaves behind, starting from a folder
      holding `files`. The mode always agrees with the one table kept. */
  function Dispatch(files: seq<string>, upload: UploadedFile, disk: Disk, locked: set<string>): (o: Outcome)
    ensures o.mode == Lancai <==> o.ledger.Some?
    ensures o.mode == DataAnalysis <==> o.dataTable.Some?
    ensures o.ledger.None? || o.dataTable.None?
  {
    var purged := Purged(files, locked);
    if IsDirectUpload(upload.name) then
      var written := WithFile(purged, upload.name);
      var df := LoadTable(Join(TempDir, upload.name), disk.table(upload.name));
      if df.Some? then Outcome(DataAnalysis, None, df, written) else Outcome(NoMode, None, None, written)
    else if IsZipUpload(upload.name) then ZipRoute(purged, upload, disk, locked)
    else Outcome(NoMode, None, None, purged)
  }

  /** The purge loop at the start of each upload. */
  method PurgeTempFolder(folder: TempFolder, locked: set<string>)
    modifies folder
    ensures folder.files == Purged(old(folder.files), locked)
  {
    var listing := folder.files;
    folder.RemoveEach(listing, locked);
  }

  /** `process_uploaded_file`: reset the session, purge the folder, then
      dispatch on the lower-cased extension: ".csv"/".xlsx" load directly;
      ".zip" tries the XML route first and the tabular route only if that did
      not commit; anything else ends in mode 'none'. */
  method ProcessUploadedFile(session: Session, folder: TempFolder, upload: UploadedFile, disk: Disk, locked: set<string>)
    modifies session, folder
    ensures var o := Dispatch(old(folder.files), upload, disk, locked);
      && session.mode == o.mode && session.ledger == o.ledger
      && session.dataTable == o.dataTable && folder.files == o.files
    ensures session.initialSummary.None?
    ensures session.Consistent()
  {
    session.Clear();
    PurgeTempFolder(folder, locked);
    var fileName := Lower(upload.name);
    if EndsWith(fileName, ".csv") || EndsWith(fileName, ".xlsx") {
      folder.Write(upload.name);
      var df := LoadAndValidateCsv(Join(TempDir, upload.name), disk.table(upload.name));
      if df.Some? {
        session.mode := DataAnalysis;
        session.dataTable := df;
        return;
      }
    } else if EndsWith(fileName, ".zip") {
      ProcessZipUpload(session, folder, upload, disk, locked);
      return;
    }
    session.mode := NoMode;
  }

  /** The zip branch of `process_uploaded_file`, on a cleared session: the
      XML route first, the tabular route only if that did not commit. */
  method ProcessZipUpload(session: Session, folder: TempFolder, upload: UploadedFile, disk: Disk, locked: set<string>)
    requires session.mode == NoMode && session.ledger.None? && session.dataTable.None?
    modifies session, folder
    ensures var o := ZipRoute(old(folder.files), upload, disk, locked);
      && session.mode == o.mode && session.ledger == o.ledger
      && session.dataTable == o.dataTable && folder.files == o.files
    ensures session.initialSummary == old(session.initialSummary)
  {
    var committed := TryXmlZip(session, folder, upload, disk, locked);
    if !committed {
      TryDataZip(session, folder, upload, disk, locked);
    }
  }

  /** The XML route of a zip upload: it commits to mode 'lancai' when
      unpacking succeeds and `process_xml_files` gives a ledger. */
  method TryXmlZip(session: Session, folder: TempFolder, upload: UploadedFile, disk: Disk, locked: set<string>)
    returns (committed: bool)
    requires session.mode == NoMode && session.ledger.None? && session.dataTable.None?
    modifies session, folder
    ensures (session.ledger, folder.files) == XmlRoute(old(folder.files), upload, disk, locked)
    ensures committed <==> session.ledger.Some?
    ensures session.mode == (if committed then Lancai else NoMode) && session.dataTable.None?
    ensures session.initialSummary == old(session.initialSummary)
  {
    ghost var before := folder.files;
    var unpacked := UnpackXmlZipLancai(folder, upload.name, upload.zip, locked);
    ghost var mid := folder.files;
    if unpacked {
      var rows := ProcessXmlFiles(folder, disk.xml, disk.toFloat, locked);
      XmlRouteSteps(before, upload, disk, locked, mid, rows, folder.files);
      if rows.Some? {
        session.mode := Lancai;
        session.ledger := rows;
        return true;
      }
    }
    return false;
  }

  /** The tabular fallback of a zip upload, ending in mode 'none' when it
      does not load a table. */
  method TryDataZip(session: Session, folder: TempFolder, upload: UploadedFile, disk: Disk, locked: set<string>)
    requires session.mode == NoMode && session.ledger.None? && session.dataTable.None?
    modifies session, folder
    ensures var o := DataRoute(old(folder.files), upload, disk, locked);
      && session.mode == o.mode && session.ledger == o.ledger
      && session.dataTable == o.dataTable && folder.files == o.files
    ensures session.initialSummary == old(session.initialSummary)
  {
    var first := UnpackDataZip(folder, upload.name, upload.zip, locked);
    if first.Some? {
      var df := LoadAndValidateCsv(Join(TempDir, first.value), disk.table(first.value));
      if df.Some? {
        session.mode := DataAnalysis;
        session.dataTable := df;
        folder.TryRemove(first.value, locked);
        return;
      }
    }
    session.mode := NoMode;
  }

  /** A ".csv" or ".xlsx" upload is stored in the folder and loaded directly:
      mode 'data_analysis' with the loaded table exactly when the loader
      returns one, mode 'none' otherwise; no ledger either way. */
  lemma DirectUploadOutcome(files: seq<string>, upload: UploadedFile, disk: Disk, locked: set<string>)
    requires IsDirectUpload(upload.name)
    ensures var o := Dispatch(files, upload, disk, locked);
      var loaded := LoadTable(Join(TempDir, upload.name), disk.table(upload.name));
      && o.dataTable == loaded && o.ledger.None?
      && (o.mode == DataAnalysis <==> loaded.Some?)
      && (o.mode == NoMode <==> loaded.None?)
      && upload.name in o.files
  {
  }

  /** Any other extension (other than ".zip") ends in mode 'none' with
      nothing loaded, after the purge. */
  lemma OtherUploadOutcome(files: seq<string>, upload: UploadedFile, disk: Disk, locked: set<string>)
    requires !IsDirectUpload(upload.name) && !IsZipUpload(upload.name)
    ensures Dispatch(files, upload, disk, locked) == Outcome(NoMode, None, None, Purged(files, locked))
  {
  }

  /** A zip commits to mode 'lancai' exactly when it lists an ".xml" entry
      and `process_xml_files` then produces a ledger; that ledger is stored. */
  lemma ZipLancaiOutcome(files: seq<string>, upload: UploadedFile, disk: Disk, locked: set<string>)
    requires !IsDirectUpload(upload.name) && IsZipUpload(upload.name)
    ensures var o := Dispatch(files, upload, disk, locked);
      var (ok, unpacked) := XmlUnpack(Purged(files, locked), upload.name, upload.zip, locked);
      && (o.mode == Lancai <==>
            upload.zip.Zip? && (exists e :: e in upload.zip.entries && IsXmlName(e))
            && XmlBatch(unpacked, disk.xml, disk.toFloat).Some?)
      && (o.mode == Lancai ==> o.ledger == XmlBatch(unpacked, disk.xml, disk.toFloat))
  {
    XmlUnpackOutcome(Purged(files, locked), upload.name, upload.zip, locked);
  }

  /** The tabular fallback of a zip commits only when the XML route did not,
      and then holds the loaded first data entry of the archive. */
  lemma ZipFallbackOutcome(files: seq<string>, upload: UploadedFile, disk: Disk, locked: set<string>)
    requires !IsDirectUpload(upload.name) && IsZipUpload(upload.name)
    ensures Dispatch(files, upload, disk, locked).mode == DataAnalysis ==>
      && XmlRoute(Purged(files, locked), upload, disk, locked).0.None?
      && upload.zip.Zip?
      && var first := FindFirstDataFile(upload.zip.entries);
         && first.Some?
         && Dispatch(files, upload, disk, locked).dataTable == LoadTable(Join(TempDir, first.value), disk.table(first.value))
  {
  }

  /** Conversely, when the XML route of a zip does not commit and the
      archive's first data entry loads, the upload ends in 'data_analysis'
      holding that table. */
  lemma ZipFallbackCommits(files: seq<string>, upload: UploadedFile, disk: Disk, locked: set<string>, first: string)
    requires !IsDirectUpload(upload.name) && IsZipUpload(upload.name)
    requires upload.zip.Zip? && FindFirstDataFile(upload.zip.entries) == Some(first)
    ensures XmlRoute(Purged(files, locked), upload, disk, locked).0.None?
            && LoadTable(Join(TempDir, first), disk.table(first)).Some? ==>
      && Dispatch(files, upload, disk, locked).mode == DataAnalysis
      && Dispatch(files, upload, disk, locked).dataTable == LoadTable(Join(TempDir, first), disk.table(first))
  {
    var purged := Purged(files, locked);
    var (rows, afterXml) := XmlRoute(purged, upload, disk, locked);
    if rows.None? {
      assert ZipRoute(purged, upload, disk, locked) == DataRoute(afterXml, upload, disk, locked);
      assert DataUnpack(afterXml, upload.name, upload.zip, locked).0 == Some(first);
    }
  }

  /** A data name cannot be the name of a zip upload. */
  lemma DataNameIsNotZip(name: string)
    requires IsDataName(name)
    ensures !IsZipUpload(name)
  {
    if EndsWith(Lower(name), ".csv") {
      EndsWithExclusive(Lower(name), ".csv", ".zip");
    } else {
      EndsWithExclusive(Lower(name), ".xlsx", ".zip");
    }
  }

  /** When the tabular fallback extracts a data entry that does not load, the
      mode is 'none' and the extracted file stays in the folder: it is removed
      only after a successful load. */
  lemma FailedLoadKeepsDataFile(files: seq<string>, upload: UploadedFile, disk: Disk, locked: set<string>, first: string)
    requires !IsDirectUpload(upload.name) && IsZipUpload(upload.name)
    requires upload.zip.Zip? && FindFirstDataFile(upload.zip.entries) == Some(first)
    ensures XmlRoute(Purged(files, locked), upload, disk, locked).0.None?
            && LoadTable(Join(TempDir, first), disk.table(first)).None? ==>
      && Dispatch(files, upload, disk, locked).mode == NoMode
      && first in Dispatch(files, upload, disk, locked).files
  {
    var purged := Purged(files, locked);
    var (rows, afterXml) := XmlRoute(purged, upload, disk, locked);
    if rows.None? {
      DataNameIsNotZip(first);
      assert ZipRoute(purged, upload, disk, locked) == DataRoute(afterXml, upload, disk, locked);
      DataUnpackOutcome(afterXml, upload.name, upload.zip, locked);
      assert DataUnpack(afterXml, upload.name, upload.zip, locked).0 == Some(first);
    }
  }

  /** Neither `files` after writing `name` and removing it again changes. */
  lemma {:induction false} WriteThenRemove(files: seq<string>, name: string)
    requires name !in files
    ensures Drop(files + [name], {name}) == files
  {
    if files != [] {
      assert (files + [name])[1..] == files[1..] + [name];
      WriteThenRemove(files[1..], name);
    } else {
      assert Drop([name], {name}) == [] + Drop([], {name});
    }
  }

  /** Every path of a zip upload removes the uploaded archive, unless its
      removal fails. */
  lemma ZipUploadRemoved(files: seq<string>, upload: UploadedFile, disk: Disk, locked: set<string>)
    requires !IsDirectUpload(upload.name) && IsZipUpload(upload.name)
    requires upload.name !in locked
    ensures upload.name !in Dispatch(files, upload, disk, locked).files
  {
    var purged := Purged(files, locked);
    XmlUnpackOutcome(purged, upload.name, upload.zip, locked);
    var (rows, afterXml) := XmlRoute(purged, upload, disk, locked);
    assert upload.name !in afterXml;
    if rows.None? {
      DataRouteRemovesUpload(afterXml, upload, disk, locked);
    }
  }

  lemma DataRouteRemovesUpload(files: seq<string>, upload: UploadedFile, disk: Disk, locked: set<string>)
    requires upload.name !in locked
    ensures upload.name !in DataRoute(files, upload, disk, locked).files
  {
    DataUnpackOutcome(files, upload.name, upload.zip, locked);
  }

  /** A zip without any ".xml" or data entry (or one that does not open)
      ends in mode 'none' with nothing loaded. When the archive's own removal
      succeeds, the folder is left as the purge left it. */
  lemma EmptyZipLeavesNothing(files: seq<string>, upload: UploadedFile, disk: Disk, locked: set<string>)
    requires !IsDirectUpload(upload.name) && IsZipUpload(upload.name)
    requires upload.zip.Zip? ==> forall e :: e in upload.zip.entries ==> !IsXmlName(e) && !IsDataName(e)
    ensures var o := Dispatch(files, upload, disk, locked);
      o.mode == NoMode && o.ledger.None? && o.dataTable.None?
    ensures upload.name !in locked ==> Dispatch(files, upload, disk, locked).files == Purged(files, locked)
  {
    var purged := Purged(files, locked);
    var once := RemoveAttempt(WithFile(purged, upload.name), upload.name, locked);
    if upload.zip.Zip? {
      assert XmlNames(upload.zip.entries) == [] by {
        if XmlNames(upload.zip.entries) != [] {
          assert XmlNames(upload.zip.entries)[0] in XmlNames(upload.zip.entries);
        }
      }
      assert FindFirstDataFile(upload.zip.entries).None?;
    }
    assert XmlRoute(purged, upload, disk, locked) == (None, once);
    assert DataRoute(once, upload, disk, locked) ==
      Outcome(NoMode, None, None, RemoveAttempt(WithFile(once, upload.name), upload.name, locked));
    if upload.name !in locked {
      assert upload.name !in purged;
      WriteThenRemove(purged, upload.name);
      assert once == purged;
    }
  }

  lemma DataNameIsNotXml(name: string)
    requires IsDataName(name)
    ensures !IsXmlName(name)
  {
    if EndsWith(Lower(name), ".csv") {
      EndsWithExclusive(Lower(name), ".csv", ".xml");
    } else {
      EndsWithExclusive(Lower(name), ".xlsx", ".xml");
    }
  }

  /** After a zip commits to mode 'lancai', the only XML files left in the
      folder are those whose removal failed. */
  lemma LancaiLeavesOnlyLockedXml(files: seq<string>, upload: UploadedFile, disk: Disk, locked: set<string>)
    requires !IsDirectUpload(upload.name) && IsZipUpload(upload.name)
    ensures Dispatch(files, upload, disk, locked).mode == Lancai ==>
      forall x :: x in Dispatch(files, upload, disk, locked).files && IsXmlName(x) ==> x in locked
  {
  }

  /** The tabular fallback keeps every file other than the upload and data
      files. */
  lemma DataRouteKeeps(files: seq<string>, upload: UploadedFile, disk: Disk, locked: set<string>, x: string)
    requires x in files && x != upload.name && !IsDataName(x)
    ensures x in DataRoute(files, upload, disk, locked).files
  {
    DataUnpackOutcome(files, upload.name, upload.zip, locked);
  }

  /** When the XML route of a zip fails after extracting, the extracted XML
      files stay in the folder: `process_xml_files` returns before its
      clean-up loop, and the tabular route only removes its own data file. */
  lemma FailedXmlRouteKeepsXml(files: seq<string>, upload: UploadedFile, disk: Disk, locked: set<string>, e: string)
    requires !IsDirectUpload(upload.name) && IsZipUpload(upload.name)
    requires upload.zip.Zip? && e in upload.zip.entries && IsXmlName(e) && e != upload.name
    ensures Dispatch(files, upload, disk, locked).mode != Lancai ==> e in Dispatch(files, upload, disk, locked).files
  {
    var purged := Purged(files, locked);
    XmlUnpackOutcome(purged, upload.name, upload.zip, locked);
    var (rows, afterXml) := XmlRoute(purged, upload, disk, locked);
    if rows.None? {
      assert e in afterXml;
      if IsDataName(e) {
        DataNameIsNotXml(e);
      }
      DataRouteKeeps(afterXml, upload, disk, locked, e);
    }
  }
}
