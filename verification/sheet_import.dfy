/** Bulk import from a spreadsheet: each sheet row names a file already on
    disk plus its descriptive fields, and one column per metadata type holds
    that type's values separated by `" | "`. */
module SheetImport {
  import opened Common
  import opened Json
  import Text
  import Seqs
  import Models
  import LibraryBuild

  /** The separator between several values of one metadata type in a cell. */
  const Separator := " | "

  /** `row.get(key)` on a parsed sheet row: an absent column reads as `None`. */
  function Cell(row: Value, key: string): (r: Value)
    ensures r != Undefined
    ensures Get(row, key) == Undefined ==> r == Null
    ensures row.Obj? && Get(row, key) != Undefined ==> r == Get(row, key)
  {
    var v := Get(row, key);
    if v.Undefined? then Null else v
  }

  /** A metadata value read from a sheet, not yet matched to a stored row. */
  datatype SheetMetadata = SheetMetadata(name: string, metaType: LibraryBuild.MetadataType)

  function Tag(pieces: seq<string>, t: LibraryBuild.MetadataType): (r: seq<SheetMetadata>)
    ensures |r| == |pieces|
    ensures forall i :: 0 <= i < |r| ==> r[i] == SheetMetadata(pieces[i], t)
  {
    seq(|pieces|, i requires 0 <= i < |pieces| => SheetMetadata(pieces[i], t))
  }

  function Names(es: seq<SheetMetadata>): (r: seq<string>)
    ensures |r| == |es|
    ensures forall i :: 0 <= i < |r| ==> r[i] == es[i].name
  {
    seq(|es|, i requires 0 <= i < |es| => es[i].name)
  }

  /** A cell that contributes nothing: the column is absent, null or empty. */
  predicate Blank(cell: Value)
  {
    cell == Str("") || cell == Null
  }

  /** What the column of type `t` contributes to a row's metadata: nothing
      for a blank cell, one value per separated piece of a text cell, and
      `None` for any other cell, whose `split` raises. */
  function CellMetadata(t: LibraryBuild.MetadataType, row: Value): (r: Option<seq<SheetMetadata>>)
    ensures Blank(Cell(row, t.name)) ==> r == Some([])
    ensures r.None? <==> !Blank(Cell(row, t.name)) && !Cell(row, t.name).Str?
    ensures r.Some? ==> forall i :: 0 <= i < |r.value| ==> r.value[i].metaType == t
  {
    var cell := Cell(row, t.name);
    if Blank(cell) then Some([])
    else if cell.Str? then Some(Tag(Text.Split(cell.s, Separator), t))
    else None
  }

  /** The metadata of one sheet row, column by column in the order of
      `types`; `None` when some column holds a cell that is not text. */
  function AssociatedMeta(types: seq<LibraryBuild.MetadataType>, row: Value): Option<seq<SheetMetadata>>
    decreases |types|
  {
    if |types| == 0 then Some([])
    else
      match AssociatedMeta(types[..|types| - 1], row)
      case None => None
      case Some(prefix) =>
        match CellMetadata(types[|types| - 1], row)
        case None => None
        case Some(block) => Some(prefix + block)
  }

  /** Once a column fails, the whole row's metadata fails. */
  lemma {:induction false} AssociatedMetaPrefixFails(types: seq<LibraryBuild.MetadataType>, row: Value, n: nat)
    requires n <= |types|
    requires AssociatedMeta(types[..n], row).None?
    ensures AssociatedMeta(types, row).None?
    decreases |types|
  {
    if n < |types| {
      var pre := types[..|types| - 1];
      assert pre[..n] == types[..n];
      AssociatedMetaPrefixFails(pre, row, n);
    } else {
      assert types[..n] == types;
    }
  }

  /** The metadata of one more column after a readable prefix. */
  lemma AssociatedMetaStep(types: seq<LibraryBuild.MetadataType>, row: Value, i: nat, prefix: seq<SheetMetadata>)
    requires i < |types| && AssociatedMeta(types[..i], row) == Some(prefix)
    ensures AssociatedMeta(types[..i + 1], row)
            == match CellMetadata(types[i], row) case None => None case Some(block) => Some(prefix + block)
  {
    assert types[..i + 1][..i] == types[..i];
  }

  /** The inner loop: one value of type `t` per piece, appended in order. */
  method AppendTagged(head: seq<SheetMetadata>, values: seq<string>, t: LibraryBuild.MetadataType)
    returns (metaList: seq<SheetMetadata>)
    ensures metaList == head + Tag(values, t)
  {
    metaList := head;
    var j := 0;
    while j < |values|
      invariant 0 <= j <= |values|
      invariant metaList == head + Tag(values[..j], t)
    {
      assert Tag(values[..j + 1], t) == Tag(values[..j], t) + [SheetMetadata(values[j], t)];
      metaList := metaList + [SheetMetadata(values[j], t)];
      j := j + 1;
    }
    assert values[..j] == values;
  }

  /** The loop over all metadata types, reading each row cell and splitting it. */
  method GetAssociatedMeta(types: seq<LibraryBuild.MetadataType>, row: Value)
    returns (r: Option<seq<SheetMetadata>>)
    ensures r == AssociatedMeta(types, row)
  {
    var metaList: seq<SheetMetadata> := [];
    var i := 0;
    while i < |types|
      invariant 0 <= i <= |types|
      invariant AssociatedMeta(types[..i], row) == Some(metaList)
    {
      var t := types[i];
      AssociatedMetaStep(types, row, i, metaList);
      var cell := Cell(row, t.name);
      if Blank(cell) {
        assert metaList + [] == metaList;
        i := i + 1;
        continue;
      }
      if !cell.Str? {
        AssociatedMetaPrefixFails(types, row, i + 1);
        return None;
      }
      var values := Text.Split(cell.s, Separator);
      metaList := AppendTagged(metaList, values, t);
      i := i + 1;
    }
    assert types[..i] == types;
    r := Some(metaList);
  }

  /** Every value read belongs to one of the listed types. */
  lemma {:induction false} AssociatedMetaTypes(types: seq<LibraryBuild.MetadataType>, row: Value)
    requires AssociatedMeta(types, row).Some?
    ensures forall e :: e in AssociatedMeta(types, row).value ==> e.metaType in types
    decreases |types|
  {
    if |types| > 0 {
      var pre := types[..|types| - 1];
      AssociatedMetaTypes(pre, row);
      forall e | e in AssociatedMeta(types, row).value
        ensures e.metaType in types
      {
        var prefix := AssociatedMeta(pre, row).value;
        var block := CellMetadata(types[|types| - 1], row).value;
        assert e in prefix + block;
        if e in prefix {
          assert e.metaType in pre;
        } else {
          assert e.metaType == types[|types| - 1];
        }
      }
    }
  }

  function OfType(t: LibraryBuild.MetadataType): SheetMetadata -> bool
  {
    (e: SheetMetadata) => e.metaType == t
  }

  /** The text of a column as the sheet author wrote it; blank cells read as "". */
  function CellText(row: Value, key: string): string
  {
    var cell := Cell(row, key);
    if cell.Str? then cell.s else ""
  }

  /** The values read for type `types[k]` are exactly those its own column contributes. */
  lemma {:induction false} ValuesOfType(types: seq<LibraryBuild.MetadataType>, row: Value, k: nat)
    requires forall i, j :: 0 <= i < j < |types| ==> types[i] != types[j]
    requires AssociatedMeta(types, row).Some?
    requires k < |types|
    ensures CellMetadata(types[k], row).Some?
    ensures Seqs.Filter(AssociatedMeta(types, row).value, OfType(types[k])) == CellMetadata(types[k], row).value
    decreases |types|
  {
    var n := |types|;
    var last := types[n - 1];
    var pre := types[..n - 1];
    var prefix := AssociatedMeta(pre, row).value;
    var block := CellMetadata(last, row).value;
    var p := OfType(types[k]);
    assert AssociatedMeta(types, row).value == prefix + block;
    Seqs.FilterConcat(prefix, block, p);
    if k == n - 1 {
      AssociatedMetaTypes(pre, row);
      forall i | 0 <= i < |prefix|
        ensures !p(prefix[i])
      {
        assert prefix[i] in prefix;
      }
      Seqs.FilterNone(prefix, p);
      Seqs.FilterAll(block, p);
    } else {
      forall i | 0 <= i < |block|
        ensures !p(block[i])
      {
        assert types[k] != last;
      }
      Seqs.FilterNone(block, p);
      assert pre[k] == types[k];
      ValuesOfType(pre, row, k);
      assert Seqs.Filter(prefix + block, p) == Seqs.Filter(prefix, p) + [];
    }
  }

  /** One column's values, joined back with the separator, give its text. */
  lemma ColumnRoundTrip(t: LibraryBuild.MetadataType, row: Value)
    requires CellMetadata(t, row).Some?
    ensures Text.Join(Names(CellMetadata(t, row).value), Separator) == CellText(row, t.name)
    ensures CellMetadata(t, row).value == [] <==> Blank(Cell(row, t.name))
  {
    var cell := Cell(row, t.name);
    if !Blank(cell) {
      var pieces := Text.Split(cell.s, Separator);
      assert Names(Tag(pieces, t)) == pieces;
      Text.JoinSplit(cell.s, Separator);
    }
  }

  /** The cell of every type is recovered from the values read for that
      type, joined back with the separator: no value is lost, split wrongly
      or attributed to another type. */
  lemma AssociatedMetaRoundTrip(types: seq<LibraryBuild.MetadataType>, row: Value, k: nat)
    requires forall i, j :: 0 <= i < j < |types| ==> types[i] != types[j]
    requires AssociatedMeta(types, row).Some?
    requires k < |types|
    ensures Text.Join(Names(Seqs.Filter(AssociatedMeta(types, row).value, OfType(types[k]))), Separator)
            == CellText(row, types[k].name)
    ensures Seqs.Filter(AssociatedMeta(types, row).value, OfType(types[k])) == [] <==> Blank(Cell(row, types[k].name))
  {
    ValuesOfType(types, row, k);
    ColumnRoundTrip(types[k], row);
  }

  // ---------------------------------------------------------------------
  // Importing the rows

  /** The publication date a row sets: none at all, explicitly cleared (the
      year was rejected as out of range), or January 1 of the year. */
  datatype PublishedDate = Unset | Cleared | OnDate(date: LibraryBuild.Date)

  /** The range of a C `int`, which is how `datetime.date` reads its year. */
  const IntMin := -0x8000_0000
  const IntMax := 0x7fff_ffff

  /** The date set from the "Year Published" cell, or `None` when building
      the date raises something other than a range error (the cell is not
      an integer, or does not fit in a C `int`), which fails the row. */
  function PublishedDateOf(cell: Value): (r: Option<PublishedDate>)
    ensures !PyTruthy(cell) ==> r == Some(Unset)
    ensures cell.Num? && 1 <= cell.n <= 9999 ==> r == Some(OnDate(LibraryBuild.Date(cell.n, 1, 1)))
    ensures cell.Num? && cell.n != 0 && IntMin <= cell.n <= IntMax && !(1 <= cell.n <= 9999) ==> r == Some(Cleared)
    ensures r.None? <==> PyTruthy(cell) && !cell.Bool? && !(cell.Num? && IntMin <= cell.n <= IntMax)
    ensures r.Some? && r.value.OnDate? ==> 1 <= r.value.date.year <= 9999 && r.value.date.month == 1 && r.value.date.day == 1
  {
    if !PyTruthy(cell) then Some(Unset)
    else
      match cell
      case Bool(_) => Some(OnDate(LibraryBuild.Date(1, 1, 1)))   // True is the integer 1
      case Num(n) =>
        if 1 <= n <= 9999 then Some(OnDate(LibraryBuild.Date(n, 1, 1)))
        else if IntMin <= n <= IntMax then Some(Cleared)
        else None
      case _ => None
  }

  /** A content as the import stores it. */
  datatype ContentDraft = ContentDraft(
    title: Value, description: Value, copyrightNotes: Value, rightsStatement: Value,
    additionalNotes: Value, publishedDate: PublishedDate, reviewedOn: int, modifiedOn: int,
    active: bool, filesize: int, metadata: seq<SheetMetadata>)

  /** The outcome of the file system and database calls the import makes.
      Rows are identified by their position in the sheet. */
  datatype Io = Io(
    fileExists: string -> bool,            // os.path.exists of the joined path
    fileSize: string -> int,               // os.stat(...).st_size
    saveError: nat -> Option<string>,      // message of the first save, if it raised
    uploadError: nat -> Option<string>,    // message of the file upload, if it raised
    attachError: nat -> Option<string>,    // message of get_or_create/add/save of the metadata
    reviewedClock: nat -> int,             // datetime.datetime.now() while building the row
    modifiedClock: nat -> int)             // timezone.now() while building the row

  /** Abstract texts of the exceptions the import turns into messages. */
  const TypeErrorMessage := "TypeError"
  const AttributeErrorMessage := "AttributeError"
  const FileMissing := "file does not exist"
  const ServerErrorStatus := 500

  datatype UploadFailure = UploadFailure(fileName: Value, error: string)

  datatype RowOutcome =
    | Uploaded(content: ContentDraft)
    | Failed(failure: UploadFailure)
    | Aborted(error: string)    // raised outside the per-row handler: ends the import

  /** The items iterated over by `for each_content in content_data`: the
      elements of an array, the keys of an object, the characters of a
      string; `None` when the parsed value is not iterable. */
  function SheetItems(sheet: Value): (r: Option<seq<Value>>)
    ensures sheet.Arr? ==> r == Some(sheet.items)
    ensures r.None? <==> !(sheet.Arr? || sheet.Obj? || sheet.Str?)
  {
    match sheet
    case Arr(items) => Some(items)
    case Obj(entries) => Some(seq(|entries|, i requires 0 <= i < |entries| => Str(entries[i].0)))
    case Str(s) => Some(seq(|s|, i requires 0 <= i < |s| => Str([s[i]])))
    case _ => None
  }

  function DraftOf(row: Value, date: PublishedDate, reviewedOn: int, modifiedOn: int, filesize: int,
                   meta: seq<SheetMetadata>): ContentDraft
  {
    ContentDraft(Cell(row, "Title"), Cell(row, "Description"), Cell(row, "Copyright Notes"),
                 Cell(row, "Rights Statement"), Cell(row, "Additional Notes"), date, reviewedOn, modifiedOn,
                 true, filesize, meta)
  }

  /** What importing row `i` does. */
  function ProcessRow(i: nat, row: Value, mainPath: Value, types: seq<LibraryBuild.MetadataType>, io: Io): (r: RowOutcome)
    ensures !row.Obj? ==> r == Aborted(AttributeErrorMessage)
    ensures row.Obj? && (!mainPath.Str? || !Cell(row, "File Name").Str?) ==> r == Aborted(TypeErrorMessage)
    ensures row.Obj? && mainPath.Str? && Cell(row, "File Name").Str?
            && !io.fileExists(Models.PathJoin(mainPath.s, Cell(row, "File Name").s))
            ==> r == Failed(UploadFailure(Cell(row, "File Name"), FileMissing))
    ensures r.Failed? ==> r.failure.fileName == Cell(row, "File Name")
    ensures r.Uploaded? <==> row.Obj? && mainPath.Str? && Cell(row, "File Name").Str?
                             && io.fileExists(Models.PathJoin(mainPath.s, Cell(row, "File Name").s))
                             && PublishedDateOf(Cell(row, "Year Published")).Some?
                             && io.saveError(i).None? && io.uploadError(i).None?
                             && AssociatedMeta(types, row).Some? && io.attachError(i).None?
    ensures r.Uploaded? ==> r.content.active && r.content.metadata == AssociatedMeta(types, row).value
    ensures r.Uploaded? ==> r.content.reviewedOn == io.reviewedClock(i) && r.content.modifiedOn == io.modifiedClock(i)
  {
    if !row.Obj? then Aborted(AttributeErrorMessage)
    else
      var name := Cell(row, "File Name");
      if !mainPath.Str? || !name.Str? then Aborted(TypeErrorMessage)
      else
        var path := Models.PathJoin(mainPath.s, name.s);
        if !io.fileExists(path) then Failed(UploadFailure(name, FileMissing))
        else
          match PublishedDateOf(Cell(row, "Year Published"))
          case None => Failed(UploadFailure(name, TypeErrorMessage))
          case Some(date) =>
            if io.saveError(i).Some? then Failed(UploadFailure(name, io.saveError(i).value))
            else if io.uploadError(i).Some? then Failed(UploadFailure(name, io.uploadError(i).value))
            else
              match AssociatedMeta(types, row)
              case None => Failed(UploadFailure(name, AttributeErrorMessage))
              case Some(meta) =>
                if io.attachError(i).Some? then Failed(UploadFailure(name, io.attachError(i).value))
                else Uploaded(DraftOf(row, date, io.reviewedClock(i), io.modifiedClock(i), io.fileSize(path), meta))
  }

  function Outcomes(items: seq<Value>, mainPath: Value, types: seq<LibraryBuild.MetadataType>, io: Io): (r: seq<RowOutcome>)
    ensures |r| == |items|
    ensures forall i :: 0 <= i < |r| ==> r[i] == ProcessRow(i, items[i], mainPath, types, io)
  {
    seq(|items|, i requires 0 <= i < |items| => ProcessRow(i, items[i], mainPath, types, io))
  }

  /** The answer of the import: a summary, or the server error of an
      exception that escaped the rows. */
  datatype UploadReport =
    | Summary(successCount: nat, unsuccessful: seq<UploadFailure>)
    | ServerError(error: string, status: int)

  /** The report after the given row outcomes, in order; the first abort is final. */
  function Report(outs: seq<RowOutcome>): UploadReport
  {
    if |outs| == 0 then Summary(0, [])
    else
      match Report(outs[..|outs| - 1])
      case ServerError(e, st) => ServerError(e, st)
      case Summary(n, fs) =>
        match outs[|outs| - 1]
        case Uploaded(_) => Summary(n + 1, fs)
        case Failed(f) => Summary(n, fs + [f])
        case Aborted(e) => ServerError(e, ServerErrorStatus)
  }

  /** The contents left in the store after the given row outcomes, keyed by row. */
  function Stored(outs: seq<RowOutcome>): map<nat, ContentDraft>
  {
    if |outs| == 0 then map[]
    else if Report(outs[..|outs| - 1]).ServerError? then Stored(outs[..|outs| - 1])
    else
      match outs[|outs| - 1]
      case Uploaded(c) => Stored(outs[..|outs| - 1])[|outs| - 1 := c]
      case _ => Stored(outs[..|outs| - 1])
  }

  /** After an abort, later rows change nothing. */
  lemma {:induction false} AbortIsFinal(outs: seq<RowOutcome>, n: nat)
    requires n <= |outs|
    requires Report(outs[..n]).ServerError?
    ensures Report(outs) == Report(outs[..n])
    ensures Stored(outs) == Stored(outs[..n])
    decreases |outs|
  {
    if n < |outs| {
      var pre := outs[..|outs| - 1];
      assert pre[..n] == outs[..n];
      AbortIsFinal(pre, n);
    } else {
      assert outs[..n] == outs;
    }
  }

  /** Without an abort, every row is counted once: as a success or as a
      listed failure, the failures in row order. */
  lemma {:induction false} ReportAccountsForEveryRow(outs: seq<RowOutcome>)
    requires Report(outs).Summary?
    ensures Report(outs).successCount + |Report(outs).unsuccessful| == |outs|
    ensures forall i :: 0 <= i < |outs| ==> !outs[i].Aborted?
    ensures Report(outs).unsuccessful == FailuresOf(outs)
    decreases |outs|
  {
    if |outs| > 0 {
      var pre := outs[..|outs| - 1];
      ReportAccountsForEveryRow(pre);
      assert outs == pre + [outs[|outs| - 1]];
      FailuresOfSnoc(pre, outs[|outs| - 1]);
    }
  }

  /** The failures among the outcomes, in order. */
  function FailuresOf(outs: seq<RowOutcome>): (r: seq<UploadFailure>)
    ensures |r| <= |outs|
  {
    if |outs| == 0 then []
    else (if outs[0].Failed? then [outs[0].failure] else []) + FailuresOf(outs[1..])
  }

  lemma {:induction false} FailuresOfSnoc(outs: seq<RowOutcome>, o: RowOutcome)
    ensures FailuresOf(outs + [o]) == FailuresOf(outs) + (if o.Failed? then [o.failure] else [])
    decreases |outs|
  {
    if |outs| == 0 {
      assert [o][1..] == [];
    } else {
      var head := if outs[0].Failed? then [outs[0].failure] else [];
      assert (outs + [o])[1..] == outs[1..] + [o];
      assert FailuresOf(outs + [o]) == head + FailuresOf(outs[1..] + [o]);
      FailuresOfSnoc(outs[1..], o);
      assert FailuresOf(outs) == head + FailuresOf(outs[1..]);
    }
  }

  /** Without an abort, one more outcome stores its content exactly when it
      is an upload, and counts one more success then. */
  lemma StoredSnoc(outs: seq<RowOutcome>)
    requires |outs| > 0 && Report(outs).Summary?
    ensures var n := |outs| - 1;
            && Report(outs[..n]).Summary?
            && Stored(outs) == (if outs[n].Uploaded? then Stored(outs[..n])[n := outs[n].content] else Stored(outs[..n]))
            && Report(outs).successCount == Report(outs[..n]).successCount + (if outs[n].Uploaded? then 1 else 0)
  {
  }

  /** Without an abort, the store holds the uploaded rows' contents under
      their row numbers, and nothing else. */
  lemma {:induction false} StoredKeysAndValues(outs: seq<RowOutcome>)
    requires Report(outs).Summary?
    ensures forall i: nat :: i in Stored(outs) <==> i < |outs| && outs[i].Uploaded?
    ensures forall i: nat :: i in Stored(outs) ==> Stored(outs)[i] == outs[i].content
    decreases |outs|
  {
    if |outs| > 0 {
      var n := |outs| - 1;
      var pre := outs[..n];
      StoredSnoc(outs);
      StoredKeysAndValues(pre);
      assert forall i :: 0 <= i < n ==> outs[i] == pre[i];
    }
  }

  /** Without an abort, the store keeps exactly the uploaded rows, with the
      content each built, and as many as the success count. */
  lemma {:induction false} StoredAreTheSuccesses(outs: seq<RowOutcome>)
    requires Report(outs).Summary?
    ensures forall i: nat :: i in Stored(outs) <==> i < |outs| && outs[i].Uploaded?
    ensures forall i: nat :: i in Stored(outs) ==> Stored(outs)[i] == outs[i].content
    ensures |Stored(outs)| == Report(outs).successCount
    decreases |outs|
  {
    StoredKeysAndValues(outs);
    if |outs| > 0 {
      var n := |outs| - 1;
      var pre := outs[..n];
      StoredSnoc(outs);
      StoredAreTheSuccesses(pre);
      if outs[n].Uploaded? {
        assert n !in Stored(pre);
      }
    }
  }

  /** Importing one row: check the file, build the content, save it, upload
      the file and attach the metadata; a content saved before a later step
      raises is deleted again. */
  method ImportRow(i: nat, row: Value, mainPath: Value, types: seq<LibraryBuild.MetadataType>, io: Io,
                   stored: map<nat, ContentDraft>)
    returns (outcome: RowOutcome, after: map<nat, ContentDraft>)
    requires i !in stored
    ensures outcome == ProcessRow(i, row, mainPath, types, io)
    ensures after == if outcome.Uploaded? then stored[i := outcome.content] else stored
  {
    after := stored;
    if !row.Obj? {
      return Aborted(AttributeErrorMessage), after;
    }
    var name := Cell(row, "File Name");
    if !mainPath.Str? || !name.Str? {
      return Aborted(TypeErrorMessage), after;
    }
    var path := Models.PathJoin(mainPath.s, name.s);
    if !io.fileExists(path) {
      return Failed(UploadFailure(name, FileMissing)), after;
    }
    var reviewedOn := io.reviewedClock(i);
    var yearCell := Cell(row, "Year Published");
    var date: PublishedDate := Unset;
    if PyTruthy(yearCell) {
      if yearCell.Bool? {
        date := OnDate(LibraryBuild.Date(1, 1, 1));
      } else if yearCell.Num? && 1 <= yearCell.n <= 9999 {
        date := OnDate(LibraryBuild.Date(yearCell.n, 1, 1));
      } else if yearCell.Num? && IntMin <= yearCell.n <= IntMax {
        date := Cleared;
      } else {
        return Failed(UploadFailure(name, TypeErrorMessage)), after;
      }
    }
    assert PublishedDateOf(yearCell) == Some(date);
    var modifiedOn := io.modifiedClock(i);
    var filesize := io.fileSize(path);
    if io.saveError(i).Some? {
      return Failed(UploadFailure(name, io.saveError(i).value)), after;
    }
    after := after[i := DraftOf(row, date, reviewedOn, modifiedOn, filesize, [])];
    if io.uploadError(i).Some? {
      after := after - {i};
      return Failed(UploadFailure(name, io.uploadError(i).value)), after;
    }
    var meta := GetAssociatedMeta(types, row);
    if meta.None? {
      after := after - {i};
      return Failed(UploadFailure(name, AttributeErrorMessage)), after;
    }
    if io.attachError(i).Some? {
      after := after - {i};
      return Failed(UploadFailure(name, io.attachError(i).value)), after;
    }
    var content := DraftOf(row, date, reviewedOn, modifiedOn, filesize, meta.value);
    after := after[i := content];
    outcome := Uploaded(content);
  }

  /** The import: parse the sheet, then import row by row. A failed row is
      listed and the loop goes on; an exception outside the row handler
      ends the import with a server error. */
  method UploadSheetContents(sheet: Option<Value>, mainPath: Value, types: seq<LibraryBuild.MetadataType>,
                             io: Io, parseError: string)
    returns (report: UploadReport, stored: map<nat, ContentDraft>)
    ensures sheet.None? ==> report == ServerError(parseError, ServerErrorStatus) && stored == map[]
    ensures sheet.Some? && SheetItems(sheet.value).None? ==> report == ServerError(TypeErrorMessage, ServerErrorStatus) && stored == map[]
    ensures sheet.Some? && SheetItems(sheet.value).Some? ==>
              var outs := Outcomes(SheetItems(sheet.value).value, mainPath, types, io);
              report == Report(outs) && stored == Stored(outs)
  {
    stored := map[];
    if sheet.None? {
      report := ServerError(parseError, ServerErrorStatus);
      return;
    }
    var items := SheetItems(sheet.value);
    if items.None? {
      report := ServerError(TypeErrorMessage, ServerErrorStatus);
      return;
    }
    var rows := items.value;
    ghost var outs := Outcomes(rows, mainPath, types, io);
    var unsuccessful: seq<UploadFailure> := [];
    var successCount: nat := 0;
    var i := 0;
    while i < |rows|
      invariant 0 <= i <= |rows|
      invariant Report(outs[..i]) == Summary(successCount, unsuccessful)
      invariant stored == Stored(outs[..i])
    {
      StoredKeysBelow(outs[..i]);
      var outcome;
      outcome, stored := ImportRow(i, rows[i], mainPath, types, io, stored);
      assert outcome == outs[i];
      ReportStep(outs, i, successCount, unsuccessful);
      if outcome.Aborted? {
        report := ServerError(outcome.error, ServerErrorStatus);
        AbortIsFinal(outs, i + 1);
        assert outs[..|outs|] == outs;
        return;
      } else if outcome.Failed? {
        unsuccessful := unsuccessful + [outcome.failure];
      } else {
        successCount := successCount + 1;
      }
      i := i + 1;
    }
    assert outs[..i] == outs;
    report := Summary(successCount, unsuccessful);
  }

  /** One more row outcome after a summary: the report and the store as the
      loop body updates them. */
  lemma ReportStep(outs: seq<RowOutcome>, i: nat, n: nat, fs: seq<UploadFailure>)
    requires i < |outs| && Report(outs[..i]) == Summary(n, fs)
    ensures Report(outs[..i + 1]) == match outs[i]
                                     case Uploaded(_) => Summary(n + 1, fs)
                                     case Failed(f) => Summary(n, fs + [f])
                                     case Aborted(e) => ServerError(e, ServerErrorStatus)
    ensures Stored(outs[..i + 1]) == if outs[i].Uploaded? then Stored(outs[..i])[i := outs[i].content] else Stored(outs[..i])
  {
    assert outs[..i + 1][..i] == outs[..i];
  }

  lemma {:induction false} StoredKeysBelow(outs: seq<RowOutcome>)
    ensures forall i :: i in Stored(outs) ==> i < |outs|
    decreases |outs|
  {
    if |outs| > 0 {
      StoredKeysBelow(outs[..|outs| - 1]);
    }
  }
}
