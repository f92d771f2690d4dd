/** The service layer of backend/src/services.py: choosing a reader by file
    extension, taking a bounded sample of an uploaded file, turning the
    model's reply into validated insights, and keeping the insights of each
    file in a store keyed by the insights path of its id. */
module Services {
  import opened Outcomes
  import opened JsonValues
  import opened Strings
  import Frames
  import Utils
  import Schemas
  import McpClient

  /* ------------------------------------------------------------------ */
  /* Extension dispatch                                                  */
  /* ------------------------------------------------------------------ */

  /** The branch a lower-cased extension selects. */
  datatype Family = Tabular | TextLines | Unsupported

  /** The sets of the preview (services.py:60-68). */
  function PreviewFamily(ext: string): Family {
    if ext in {".csv", ".xlsx", ".xls"} then Tabular
    else if ext in {".txt", ".docx"} then TextLines
    else Unsupported
  }

  /** The sets of generation (services.py:88-102), whose text set is
      written `{".txt", "docx"}`, without the dot. */
  function GenerationFamily(ext: string): Family {
    if ext in {".csv", ".xlsx", ".xls"} then Tabular
    else if ext in {".txt", "docx"} then TextLines
    else Unsupported
  }

  /** The two dispatches agree on every extension but `.docx`, which the
      preview reads as text and generation rejects, and `docx`, which no
      extension split ever yields. */
  lemma FamiliesDiffer(ext: string)
    ensures PreviewFamily(ext) != GenerationFamily(ext) <==> ext == ".docx" || ext == "docx"
    ensures PreviewFamily(".docx") == TextLines && GenerationFamily(".docx") == Unsupported
  {
  }

  /** An extension as `os.path.splitext(...)[1].lower()` returns it is empty
      or starts with a dot, so the undotted `docx` member of the generation
      set never matches: only `.txt` selects the text branch there. */
  lemma GenerationTextOnlyTxt(path: string)
    ensures var ext := Lower(Utils.SplitExt(path));
      GenerationFamily(ext) == TextLines <==> ext == ".txt"
  {
    var ext := Lower(Utils.SplitExt(path));
    if ext != [] {
      assert ext[0] == '.';
    }
  }

  /* ------------------------------------------------------------------ */
  /* Reading files                                                       */
  /* ------------------------------------------------------------------ */

  /** The files the services can open: a path in the map exists, and its
      value is the text it decodes to, or `None` when its bytes are not text
      in the platform encoding. */
  type Files = map<string, Option<string>>

  /** A pandas reader: which reader, the path and `nrows`; `None` is a
      reader error. */
  type TableParser = (Frames.TableReader, string, nat) -> Option<Frames.DataFrame>

  /** The reader honours `nrows`. */
  ghost predicate ReadsAtMost(readTable: TableParser) {
    forall reader, path, n :: readTable(reader, path, n).Some? ==> |readTable(reader, path, n).value.rows| <= n
  }

  /** `_read_dataframe` picks the Excel reader by a case-sensitive suffix test
      (services.py:193-195). */
  function ReaderFor(path: string): Frames.TableReader {
    if EndsWith(path, ".xlsx") || EndsWith(path, ".xls") then Frames.ExcelReader else Frames.CsvReader
  }

  /** `_read_dataframe(path, nrows)`: a missing file or a reader error is
      raised again to the caller. */
  function ReadDataframe(path: string, nrows: nat, files: Files, readTable: TableParser): (r: Result<Frames.DataFrame>)
    ensures r.Ok? <==> path in files && readTable(ReaderFor(path), path, nrows).Some?
    ensures r.Ok? ==> Some(r.value) == readTable(ReaderFor(path), path, nrows)
    ensures r.Err? ==> r.error == (if path in files then ReadFailed(path) else FileNotFound(path))
  {
    if path !in files then Err(FileNotFound(path))
    else match readTable(ReaderFor(path), path, nrows)
      case None => Err(ReadFailed(path))
      case Some(df) => Ok(df)
  }

  /** An upload named `data.XLSX` is saved under an upper-case extension,
      which the preview lower-cases into the tabular branch, while the
      case-sensitive reader choice hands it to the CSV reader. */
  lemma UpperCaseExcelReadAsCsv(mediaDir: string, fileId: string)
    requires fileId != [] && '/' !in fileId && '.' !in fileId
    ensures var path := Utils.ResolveFilePath(mediaDir, fileId, "XLSX");
      PreviewFamily(Lower(Utils.SplitExt(path))) == Tabular && ReaderFor(path) == Frames.CsvReader
  {
    var path := Utils.ResolveFilePath(mediaDir, fileId, "XLSX");
    Utils.ResolvedExtension(mediaDir, fileId, "XLSX");
    LowerUpperXlsx();
    assert Lower(Utils.SplitExt(path)) == ".xlsx";
    assert PreviewFamily(".xlsx") == Tabular;
    UpperSuffixReadAsCsv(mediaDir, fileId);
  }

  lemma LowerUpperXlsx()
    ensures "." + Lower("XLSX") == ".xlsx"
  {
    var l := Lower("XLSX");
    assert l[0] == 'x' && l[1] == 'l' && l[2] == 's' && l[3] == 'x';
  }

  lemma UpperSuffixReadAsCsv(mediaDir: string, fileId: string)
    ensures ReaderFor(Utils.ResolveFilePath(mediaDir, fileId, "XLSX")) == Frames.CsvReader
  {
    var path := Utils.ResolveFilePath(mediaDir, fileId, "XLSX");
    var ext := "." + "XLSX";
    assert path[|path| - 1] == ext[4] == 'X';
  }

  /** Text mode with universal newlines: `\r\n` and a lone `\r` both read as
      `\n`. */
  function Universal(s: string): (r: string)
    ensures '\r' !in r
    ensures '\r' !in s ==> r == s
    decreases |s|
  {
    if s == [] then []
    else if s[0] == '\r' then "\n" + Universal(if |s| > 1 && s[1] == '\n' then s[2..] else s[1..])
    else [s[0]] + Universal(s[1..])
  }

  /** The translation works piece by piece, as long as the cut does not
      separate the two characters of a `\r\n`. */
  lemma {:induction false} UniversalAppend(a: string, t: string)
    requires !(|a| > 0 && a[|a| - 1] == '\r' && |t| > 0 && t[0] == '\n')
    ensures Universal(a + t) == Universal(a) + Universal(t)
    decreases |a|
  {
    if a == [] {
      assert a + t == t;
    } else if a[0] == '\r' && |a| > 1 && a[1] == '\n' {
      UniversalAppend(a[2..], t);
      AfterCrLf(a, t);
    } else if a[0] == '\r' {
      UniversalAppend(a[1..], t);
      AfterLoneCr(a, t);
    } else {
      UniversalAppend(a[1..], t);
      AfterPlain(a, t);
    }
  }

  /* One step of `UniversalAppend` for each way the text can start. */

  lemma AfterCrLf(a: string, t: string)
    requires |a| > 1 && a[0] == '\r' && a[1] == '\n'
    requires Universal(a[2..] + t) == Universal(a[2..]) + Universal(t)
    ensures Universal(a + t) == Universal(a) + Universal(t)
  {
    CrLfFirst(a, t);
    CrLfFirst(a, []);
  }

  lemma AfterLoneCr(a: string, t: string)
    requires |a| > 0 && a[0] == '\r' && (|a| > 1 ==> a[1] != '\n')
    requires |a| == 1 && |t| > 0 ==> t[0] != '\n'
    requires Universal(a[1..] + t) == Universal(a[1..]) + Universal(t)
    ensures Universal(a + t) == Universal(a) + Universal(t)
  {
    LoneCrFirst(a, t);
    LoneCrFirst(a, []);
  }

  lemma AfterPlain(a: string, t: string)
    requires |a| > 0 && a[0] != '\r'
    requires Universal(a[1..] + t) == Universal(a[1..]) + Universal(t)
    ensures Universal(a + t) == Universal(a) + Universal(t)
  {
    PlainFirst(a, t);
    PlainFirst(a, []);
  }

  lemma CrLfFirst(a: string, t: string)
    requires |a| > 1 && a[0] == '\r' && a[1] == '\n'
    ensures Universal(a + t) == "\n" + Universal(a[2..] + t)
  {
    var s := a + t;
    assert s[0] == '\r' && s[1] == '\n';
    assert s[2..] == a[2..] + t;
  }

  lemma LoneCrFirst(a: string, t: string)
    requires |a| > 0 && a[0] == '\r' && (|a| > 1 ==> a[1] != '\n')
    requires |a| == 1 && |t| > 0 ==> t[0] != '\n'
    ensures Universal(a + t) == "\n" + Universal(a[1..] + t)
  {
    if |a| == 1 {
      LoneCrAtEnd(a, t);
    } else {
      LoneCrInside(a, t);
    }
  }

  lemma LoneCrAtEnd(a: string, t: string)
    requires a == "\r" && (|t| > 0 ==> t[0] != '\n')
    ensures Universal(a + t) == "\n" + Universal(a[1..] + t)
  {
    assert a[1..] + t == t;
    assert (a + t)[1..] == t;
    CrBeforeText(a + t, t);
  }

  lemma LoneCrInside(a: string, t: string)
    requires |a| > 1 && a[0] == '\r' && a[1] != '\n'
    ensures Universal(a + t) == "\n" + Universal(a[1..] + t)
  {
    var rest := a[1..] + t;
    assert (a + t)[1..] == rest;
    assert rest[0] == a[1];
    CrBeforeText(a + t, rest);
  }

  /** A `\r` whose next character is not `\n` reads as `\n`. */
  lemma CrBeforeText(s: string, rest: string)
    requires |s| > 0 && s[0] == '\r' && rest == s[1..]
    requires |rest| > 0 ==> rest[0] != '\n'
    ensures Universal(s) == "\n" + Universal(rest)
  {
  }

  lemma PlainFirst(a: string, t: string)
    requires |a| > 0 && a[0] != '\r'
    ensures Universal(a + t) == [a[0]] + Universal(a[1..] + t)
  {
    var s := a + t;
    assert s[0] == a[0];
    assert s[1..] == a[1..] + t;
  }

  /** A `\r\n` reads as one `\n`. */
  lemma CrLfReadsAsNewline(a: string, b: string)
    ensures Universal(a + "\r\n" + b) == Universal(a) + "\n" + Universal(b)
  {
    assert a + "\r\n" + b == a + ("\r\n" + b);
    assert ("\r\n" + b)[2..] == b;
    UniversalAppend(a, "\r\n" + b);
  }

  /** A `\r` not followed by `\n` reads as one `\n`. */
  lemma LoneCrReadsAsNewline(a: string, b: string)
    requires b == [] || b[0] != '\n'
    ensures Universal(a + "\r" + b) == Universal(a) + "\n" + Universal(b)
  {
    assert a + "\r" + b == a + ("\r" + b);
    assert ("\r" + b)[1..] == b;
    UniversalAppend(a, "\r" + b);
  }

  /** A line as `readlines` returns it: not empty, and a newline only at its
      end. */
  predicate IsLine(line: string) {
    line != [] && forall k :: 0 <= k < |line| - 1 ==> line[k] != '\n'
  }

  /** Lines that `readlines` could have returned: every line but the last
      ends in a newline. */
  predicate WellFormedLines(lines: seq<string>) {
    && (forall j :: 0 <= j < |lines| ==> IsLine(lines[j]))
    && (forall j :: 0 <= j < |lines| - 1 ==> lines[j][|lines[j]| - 1] == '\n')
  }

  /** `f.readlines()` on the text: each line keeps its newline, blank lines
      included, and the lines put together give back the text. */
  function SplitLines(s: string): (lines: seq<string>)
    ensures WellFormedLines(lines)
    ensures Concat(lines) == s
    decreases |s|
  {
    if s == [] then []
    else
      var k := FirstIndex(s, '\n');
      if k == |s| then [s]
      else
        var rest := SplitLines(s[k + 1..]);
        assert s == s[..k + 1] + s[k + 1..];
        [s[..k + 1]] + rest
  }

  /** Splitting undoes putting well-formed lines together: the split is the
      only one into `readlines` lines. */
  lemma {:induction false} SplitConcat(lines: seq<string>)
    requires WellFormedLines(lines)
    ensures SplitLines(Concat(lines)) == lines
  {
    if lines != [] {
      var first, rest := lines[0], lines[1..];
      var s := Concat(lines);
      assert s == first + Concat(rest);
      assert WellFormedLines(rest) by {
        forall j | 0 <= j < |rest| ensures IsLine(rest[j]) { assert rest[j] == lines[j + 1]; }
        forall j | 0 <= j < |rest| - 1 ensures rest[j][|rest[j]| - 1] == '\n' { assert rest[j] == lines[j + 1]; }
      }
      if first[|first| - 1] == '\n' {
        forall k | 0 <= k < |first| - 1 ensures s[k] != '\n' { assert s[k] == first[k]; }
        FirstIndexAt(s, '\n', |first| - 1);
        assert s[..|first|] == first;
        assert s[|first|..] == Concat(rest);
        SplitConcat(rest);
      } else {
        assert rest == [];
        assert s == first;
      }
    }
  }

  /** The text of the first lines is a prefix of the whole text. */
  lemma {:induction false} ConcatPrefix(lines: seq<string>, n: nat)
    requires n <= |lines|
    ensures StartsWith(Concat(lines), Concat(lines[..n]))
  {
    if n > 0 {
      ConcatPrefix(lines[1..], n - 1);
      assert lines[..n][1..] == lines[1..][..n - 1];
    }
  }

  /** `read_word_text_file(path, count)`. Its `ext` is the boolean result of
      `endswith`, never equal to the string ".docx", so every file is read
      as text (services.py:141-156): the first `count` lines, or all of them
      when there are fewer. */
  function ReadWordTextFile(path: string, count: nat, files: Files): (r: Result<seq<string>>)
    ensures path !in files ==> r == Err(FileNotFound(path))
    ensures path in files && files[path].None? ==> r == Err(ReadFailed(path))
    ensures r.Ok? ==>
      && path in files && files[path].Some?
      && var all := SplitLines(Universal(files[path].value));
      && |r.value| == (if count <= |all| then count else |all|)
      && r.value == all[..|r.value|]
      && WellFormedLines(r.value)
      && StartsWith(Universal(files[path].value), Concat(r.value))
  {
    if path !in files then Err(FileNotFound(path))
    else match files[path]
      case None => Err(ReadFailed(path))
      case Some(text) =>
        var all := SplitLines(Universal(text));
        var lines := Prefix(all, count);
        ConcatPrefix(all, |lines|);
        assert WellFormedLines(lines) by {
          forall j | 0 <= j < |lines| ensures IsLine(lines[j]) { assert lines[j] == all[j]; }
        }
        Ok(lines)
  }

  /** A file written as well-formed lines with plain newlines reads back as
      those lines, cut at `count`. */
  lemma ReadBackLines(path: string, count: nat, files: Files, lines: seq<string>)
    requires WellFormedLines(lines) && '\r' !in Concat(lines)
    requires path in files && files[path] == Some(Concat(lines))
    ensures ReadWordTextFile(path, count, files) == Ok(Prefix(lines, count))
  {
    SplitConcat(lines);
  }

  /* ------------------------------------------------------------------ */
  /* Preview                                                             */
  /* ------------------------------------------------------------------ */

  /** The `nrows` `extract_data_preview` leaves at `_read_dataframe`'s
      default. */
  const PreviewSampleRows: nat := 20

  /** The frame `extract_data_preview` builds before `head` (services.py:58-68). */
  function PreviewFrame(path: string, limit: nat, files: Files, readTable: TableParser): Result<Frames.DataFrame> {
    var ext := Lower(Utils.SplitExt(path));
    match PreviewFamily(ext)
    case Tabular => ReadDataframe(path, PreviewSampleRows, files, readTable)
    case TextLines =>
      (match ReadWordTextFile(path, limit, files)
       case Err(e) => Err(e)
       case Ok(lines) => Ok(Frames.TextFrame(lines)))
    case Unsupported => Err(UnsupportedFormat(ext))
  }

  /** `extract_data_preview(path, limit)`: the first `limit` rows of the
      frame with missing cells filled by "", and the frame's columns. */
  function ExtractDataPreview(path: string, limit: nat, files: Files, readTable: TableParser): (r: Result<Schemas.DataPreview>)
    ensures PreviewFrame(path, limit, files, readTable).Err? ==> r == Err(PreviewFrame(path, limit, files, readTable).error)
    ensures r.Ok? ==>
      && PreviewFrame(path, limit, files, readTable).Ok?
      && var df := PreviewFrame(path, limit, files, readTable).value;
      && r.value.columns == df.columns
      && |r.value.rows| == (if limit <= |df.rows| then limit else |df.rows|)
      && forall k :: 0 <= k < |r.value.rows| ==>
           r.value.rows[k] == Frames.FillRow(df.rows[k], "") && Frames.NoMissing(r.value.rows[k])
  {
    match PreviewFrame(path, limit, files, readTable)
    case Err(e) => Err(e)
    case Ok(df) =>
      var sample := Frames.FillNa(Frames.Head(df, limit), "");
      Ok(Schemas.DataPreview(df.columns, sample.rows))
  }

  /** The preview fails with the extension exactly when it lies outside both
      families of services.py:60-62; any other failure is a read failure. */
  lemma PreviewUnsupported(path: string, limit: nat, files: Files, readTable: TableParser)
    ensures var ext := Lower(Utils.SplitExt(path));
      (ExtractDataPreview(path, limit, files, readTable) == Err(UnsupportedFormat(ext)))
        <==> (PreviewFamily(ext) == Unsupported)
  {
    var ext := Lower(Utils.SplitExt(path));
    if PreviewFamily(ext) != Unsupported {
      var p := ExtractDataPreview(path, limit, files, readTable);
      if p.Err? {
        assert !p.error.UnsupportedFormat?;
      }
    }
  }

  /** A readable text file previews as one "text" column holding its first
      `limit` lines in order. */
  lemma PreviewOfTextFile(path: string, limit: nat, files: Files, readTable: TableParser)
    requires PreviewFamily(Lower(Utils.SplitExt(path))) == TextLines
    requires path in files && files[path].Some?
    ensures var lines := Prefix(SplitLines(Universal(files[path].value)), limit);
      && ExtractDataPreview(path, limit, files, readTable).Ok?
      && var p := ExtractDataPreview(path, limit, files, readTable).value;
      && p.columns == ["text"]
      && |p.rows| == |lines|
      && forall k :: 0 <= k < |lines| ==> p.rows[k] == map["text" := Frames.Text(lines[k])]
  {
    var lines := Prefix(SplitLines(Universal(files[path].value)), limit);
    TextPreviewFrame(path, limit, files, readTable);
    var r := ExtractDataPreview(path, limit, files, readTable);
    assert r.Ok?;
    FilledTextRows(lines, limit, Frames.TextFrame(lines), r.value);
  }

  /** Filling a text frame changes nothing, and the limit already applied
      to the lines keeps every row. */
  lemma FilledTextRows(lines: seq<string>, limit: nat, df: Frames.DataFrame, p: Schemas.DataPreview)
    requires |lines| <= limit && df == Frames.TextFrame(lines)
    requires p.columns == df.columns
    requires |p.rows| == (if limit <= |df.rows| then limit else |df.rows|)
    requires forall k :: 0 <= k < |p.rows| ==> p.rows[k] == Frames.FillRow(df.rows[k], "")
    ensures p.columns == ["text"] && |p.rows| == |lines|
    ensures forall k :: 0 <= k < |lines| ==> p.rows[k] == map["text" := Frames.Text(lines[k])]
  {
    forall k | 0 <= k < |lines| ensures p.rows[k] == map["text" := Frames.Text(lines[k])] {
      assert p.rows[k] == Frames.FillRow(df.rows[k], "");
      assert df.rows[k] == map["text" := Frames.Text(lines[k])];
    }
  }

  lemma TextPreviewFrame(path: string, limit: nat, files: Files, readTable: TableParser)
    requires PreviewFamily(Lower(Utils.SplitExt(path))) == TextLines
    requires path in files && files[path].Some?
    ensures PreviewFrame(path, limit, files, readTable)
         == Ok(Frames.TextFrame(Prefix(SplitLines(Universal(files[path].value)), limit)))
  {
  }

  /** With a reader that honours `nrows`, a tabular preview never shows more
      than 20 rows, whatever the limit. */
  lemma TabularPreviewCap(path: string, limit: nat, files: Files, readTable: TableParser)
    requires ReadsAtMost(readTable)
    requires PreviewFamily(Lower(Utils.SplitExt(path))) == Tabular
    ensures ExtractDataPreview(path, limit, files, readTable).Ok? ==>
      |ExtractDataPreview(path, limit, files, readTable).value.rows| <= PreviewSampleRows
  {
  }

  /* ------------------------------------------------------------------ */
  /* Generation                                                          */
  /* ------------------------------------------------------------------ */

  /** The frame `generate_insights` hands to the model (services.py:80-102):
      the path is resolved with the default extension, then dispatched on
      the generation sets and read with `nrows = count`. */
  function GenerationSample(mediaDir: string, fileId: string, count: nat, files: Files, readTable: TableParser): Result<Frames.DataFrame> {
    var path := Utils.ResolveFilePath(mediaDir, fileId, Utils.DefaultExt);
    if path == [] then Err(FileNotFound(fileId))
    else
      var ext := Lower(Utils.SplitExt(path));
      match GenerationFamily(ext)
      case Tabular => ReadDataframe(path, count, files, readTable)
      case TextLines =>
        (match ReadWordTextFile(path, count, files)
         case Err(e) => Err(e)
         case Ok(lines) => Ok(Frames.TextFrame(lines)))
      case Unsupported => Err(UnsupportedFormat(ext))
  }

  /** Because the path always gets the default `xlsx` extension, generation
      reads the `.xlsx` file of the id as a table; the empty-path guard never
      fires and the text branch is never taken. Only an id whose last
      component is all dots (such as "" or "..") loses the extension and is
      rejected. */
  lemma GenerationReadsTable(mediaDir: string, fileId: string, count: nat, files: Files, readTable: TableParser)
    requires '/' !in fileId
    ensures var path := Utils.ResolveFilePath(mediaDir, fileId, Utils.DefaultExt);
      GenerationSample(mediaDir, fileId, count, files, readTable)
        == if Utils.HasNonDot(fileId, 0, |fileId|) then ReadDataframe(path, count, files, readTable)
           else Err(UnsupportedFormat([]))
  {
    Utils.GenerationPathExtension(mediaDir, fileId);
  }

  /** The title an entry without one gets: `f"Insight {i + 1}"`. */
  function DefaultTitle(i: nat): (r: string)
    ensures StartsWith(r, "Insight ") && |r| > 8
    ensures forall k :: 8 <= k < |r| ==> '0' <= r[k] <= '9'
    ensures DigitsValue(r[8..]) == i + 1
    ensures r[8..] == DecimalString(i + 1) && r[8] != '0'
  {
    var digits := DecimalString(i + 1);
    assert ("Insight " + digits)[8..] == digits;
    "Insight " + digits
  }

  const DefaultConfidence: real := 0.9

  /** One iteration of the loop body of services.py:117-124: `item.get` with
      the defaults, then validation. An entry that is not a dictionary has no
      `get` and fails like an invalid one. */
  function BuildInsight(item: Json, i: nat): (r: Result<Schemas.Insight>)
    ensures r.Ok? <==>
      && item.JObj?
      && ("title" in item.fields ==> item.fields["title"].JStr?)
      && ("description" in item.fields ==> item.fields["description"].JStr?)
      && ("confidence_score" in item.fields ==> Schemas.IsNumber(item.fields["confidence_score"]))
      && ("reference_rows" in item.fields ==> Schemas.IsIntList(item.fields["reference_rows"]))
    ensures r.Ok? ==>
      && r.value.title == (if "title" in item.fields then item.fields["title"].s else DefaultTitle(i))
      && r.value.description == (if "description" in item.fields then item.fields["description"].s else "")
      && r.value.confidenceScore
         == (if "confidence_score" in item.fields then Schemas.NumberValue(item.fields["confidence_score"]) else DefaultConfidence)
      && ("reference_rows" !in item.fields ==> r.value.referenceRows == [])
      && ("reference_rows" in item.fields ==>
            && |r.value.referenceRows| == |item.fields["reference_rows"].items|
            && forall k :: 0 <= k < |r.value.referenceRows| ==>
                 item.fields["reference_rows"].items[k] == JInt(r.value.referenceRows[k]))
  {
    if !item.JObj? then Err(InvalidEntry("item"))
    else
      var f := item.fields;
      Schemas.MakeInsight(
        Get(f, "title", JStr(DefaultTitle(i))),
        Get(f, "description", JStr("")),
        Get(f, "confidence_score", JFloat(DefaultConfidence)),
        Get(f, "reference_rows", JArr([])))
  }

  /** An empty object gets every default. */
  lemma EmptyEntryDefaults(i: nat)
    ensures BuildInsight(JObj(map[]), i) == Ok(Schemas.Insight(DefaultTitle(i), "", DefaultConfidence, []))
  {
  }

  /** `get` only covers absent keys: an explicit `null` title is not
      replaced by the default, and the entry is skipped. */
  lemma NullTitleRejected(i: nat)
    ensures BuildInsight(JObj(map["title" := JNull]), i).Err?
  {
  }

  /** The outcome of the loop body for each of the first `n` entries,
      `i` being the entry's index in `ai_response[:count]`. */
  function Built(items: seq<Json>, n: nat): (rs: seq<Result<Schemas.Insight>>)
    requires n <= |items|
    ensures |rs| == n
    ensures forall j :: 0 <= j < n ==> rs[j] == BuildInsight(items[j], j)
  {
    seq(n, j requires 0 <= j < n => BuildInsight(items[j], j))
  }

  /** What a loop that appends each success and skips each failure has
      collected after going through `rs`. */
  function Survivors<T>(rs: seq<Result<T>>): (r: seq<T>)
    ensures |r| <= |rs|
  {
    if rs == [] then []
    else
      var before := Survivors(rs[..|rs| - 1]);
      match rs[|rs| - 1]
      case Ok(x) => before + [x]
      case Err(_) => before
  }

  /** The insights the loop of services.py:115-127 collects from the first
      `n` entries of the reply. */
  function Assembled(items: seq<Json>, n: nat): seq<Schemas.Insight>
    requires n <= |items|
  {
    Survivors(Built(items, n))
  }

  /** The survivors are exactly the successes, in their original order:
      `idx` lists, increasing, the positions they came from, and every
      position holding a success is listed. */
  lemma {:induction false} SurvivorsSources<T>(rs: seq<Result<T>>) returns (idx: seq<nat>)
    ensures |idx| == |Survivors(rs)|
    ensures forall m :: 0 <= m < |idx| ==> idx[m] < |rs| && rs[idx[m]] == Ok(Survivors(rs)[m])
    ensures forall m, m' :: 0 <= m < m' < |idx| ==> idx[m] < idx[m']
    ensures forall j :: 0 <= j < |rs| && rs[j].Ok? ==> j in idx
  {
    if rs == [] {
      idx := [];
    } else {
      var init := rs[..|rs| - 1];
      var before := SurvivorsSources(init);
      var prev := Survivors(init);
      match rs[|rs| - 1]
      case Ok(x) =>
        idx := before + [|rs| - 1];
        assert Survivors(rs) == prev + [x];
        forall m | 0 <= m < |idx|
          ensures idx[m] < |rs| && rs[idx[m]] == Ok(Survivors(rs)[m])
        {
          if m < |before| {
            assert idx[m] == before[m] && Survivors(rs)[m] == prev[m] && rs[idx[m]] == init[idx[m]];
          }
        }
        forall j | 0 <= j < |rs| && rs[j].Ok? ensures j in idx {
          if j < |rs| - 1 { assert init[j] == rs[j]; assert j in before; }
        }
      case Err(_) =>
        idx := before;
        forall m | 0 <= m < |idx| ensures idx[m] < |rs| && rs[idx[m]] == Ok(Survivors(rs)[m]) {
          assert rs[idx[m]] == init[idx[m]];
        }
        forall j | 0 <= j < |rs| && rs[j].Ok? ensures j in idx {
          assert j < |rs| - 1;
          assert init[j] == rs[j];
        }
    }
  }

  /** When every outcome is a success, all of them survive, in order. */
  lemma {:induction false} SurvivorsAllOk<T>(rs: seq<Result<T>>)
    requires forall j :: 0 <= j < |rs| ==> rs[j].Ok?
    ensures |Survivors(rs)| == |rs|
    ensures forall j :: 0 <= j < |rs| ==> Survivors(rs)[j] == rs[j].value
  {
    if rs != [] {
      var init := rs[..|rs| - 1];
      SurvivorsAllOk(init);
      assert Survivors(rs) == Survivors(init) + [rs[|rs| - 1].value];
    }
  }

  /** One more entry adds its insight when it builds and nothing otherwise. */
  lemma AssembledStep(items: seq<Json>, n: nat)
    requires n < |items|
    ensures Assembled(items, n + 1)
         == Assembled(items, n) + (if BuildInsight(items[n], n).Ok? then [BuildInsight(items[n], n).value] else [])
  {
    assert Built(items, n + 1)[..n] == Built(items, n);
  }

  /** What `generate_insights(file_id, count)` returns: the sample's failure,
      the model call's failure, or the insights built from the first
      `count` entries of the reply. */
  function Generated(
    mediaDir: string, fileId: string, count: nat, files: Files, readTable: TableParser,
    render: Frames.DataFrame -> string, complete: string -> string,
    parse: string -> Option<seq<Json>>): (r: Result<seq<Schemas.Insight>>)
    ensures GenerationSample(mediaDir, fileId, count, files, readTable).Err? ==>
      r == Err(GenerationSample(mediaDir, fileId, count, files, readTable).error)
    ensures r.Ok? ==> |r.value| <= count
  {
    match GenerationSample(mediaDir, fileId, count, files, readTable)
    case Err(e) => Err(e)
    case Ok(df) =>
      match McpClient.GenerateAiInsights(McpClient.Table(df), render, complete, parse)
      case Err(e) => Err(e)
      case Ok(items) => Ok(Assembled(items, if count <= |items| then count else |items|))
  }

  /** `generate_insights`, with its loop over `ai_response[:count]`. */
  method GenerateInsights(
    mediaDir: string, fileId: string, count: nat, files: Files, readTable: TableParser,
    render: Frames.DataFrame -> string, complete: string -> string,
    parse: string -> Option<seq<Json>>) returns (r: Result<seq<Schemas.Insight>>)
    ensures r == Generated(mediaDir, fileId, count, files, readTable, render, complete, parse)
    ensures r.Ok? ==> |r.value| <= count
  {
    var sample := GenerationSample(mediaDir, fileId, count, files, readTable);
    if sample.Err? {
      return Err(sample.error);
    }
    var reply := McpClient.GenerateAiInsights(McpClient.Table(sample.value), render, complete, parse);
    if reply.Err? {
      return Err(reply.error);
    }
    var insights := AssembleInsights(reply.value, count);
    return Ok(insights);
  }

  /** The loop of services.py:115-127 over `ai_response[:count]`. */
  method AssembleInsights(items: seq<Json>, count: nat) returns (insights: seq<Schemas.Insight>)
    ensures insights == Assembled(items, if count <= |items| then count else |items|)
    ensures |insights| <= count
  {
    var n := if count <= |items| then count else |items|;
    insights := [];
    var i := 0;
    while i < n
      invariant 0 <= i <= n
      invariant insights == Assembled(items, i)
    {
      AssembledStep(items, i);
      var built := BuildInsight(items[i], i);
      if built.Ok? {
        insights := insights + [built.value];
      }
      i := i + 1;
    }
  }

  /** A reply that does not parse fails generation with the parse error, not
      with an empty list. */
  lemma GenerationParseFailure(
    mediaDir: string, fileId: string, count: nat, files: Files, readTable: TableParser,
    render: Frames.DataFrame -> string, complete: string -> string,
    parse: string -> Option<seq<Json>>)
    requires GenerationSample(mediaDir, fileId, count, files, readTable).Ok?
    requires var df := GenerationSample(mediaDir, fileId, count, files, readTable).value;
      parse(McpClient.CleanReply(complete(McpClient.FullPrompt(render(df))))) == None
    ensures var df := GenerationSample(mediaDir, fileId, count, files, readTable).value;
      Generated(mediaDir, fileId, count, files, readTable, render, complete, parse)
        == Err(ParseFailed(complete(McpClient.FullPrompt(render(df)))))
  {
  }

  /* ------------------------------------------------------------------ */
  /* Insight store                                                       */
  /* ------------------------------------------------------------------ */

  /** The document `persist_insights` writes: the list of `insight.dict()`. */
  function EncodeInsights(xs: seq<Schemas.Insight>): (doc: Json)
    ensures doc.JArr? && |doc.items| == |xs|
    ensures forall k :: 0 <= k < |xs| ==> doc.items[k] == Schemas.ToRecord(xs[k])
  {
    JArr(seq(|xs|, k requires 0 <= k < |xs| => Schemas.ToRecord(xs[k])))
  }

  /** `[Insight(**item) for item in items]`: all or nothing. */
  function DecodeItems(items: seq<Json>): (r: Option<seq<Schemas.Insight>>)
    ensures r.Some? <==> forall k :: 0 <= k < |items| ==> Schemas.FromRecord(items[k]).Ok?
    ensures r.Some? ==> |r.value| == |items|
    ensures r.Some? ==> forall k :: 0 <= k < |items| ==> Schemas.FromRecord(items[k]) == Ok(r.value[k])
  {
    if items == [] then Some([])
    else match Schemas.FromRecord(items[0])
      case Err(_) => None
      case Ok(x) =>
        match DecodeItems(items[1..])
        case None => None
        case Some(rest) => Some([x] + rest)
  }

  /** Re-validating a loaded document (services.py:181-182). Iterating an
      empty dictionary or an empty string yields nothing; any other
      non-list, or a list with an invalid entry, fails. */
  function DecodeDocument(doc: Json, fileId: string): (r: Result<seq<Schemas.Insight>>)
    ensures r.Err? ==> r.error == RecordCorrupt(fileId)
    ensures doc.JArr? ==> (r.Ok? <==> forall k :: 0 <= k < |doc.items| ==> Schemas.FromRecord(doc.items[k]).Ok?)
    ensures !doc.JArr? ==>
      r == (if doc == JObj(map[]) || doc == JStr([]) then Ok([]) else Err(RecordCorrupt(fileId)))
  {
    match doc
    case JArr(items) =>
      (match DecodeItems(items)
       case Some(xs) => Ok(xs)
       case None => Err(RecordCorrupt(fileId)))
    case JObj(fields) => if fields == map[] then Ok([]) else Err(RecordCorrupt(fileId))
    case JStr(s) => if s == [] then Ok([]) else Err(RecordCorrupt(fileId))
    case _ => Err(RecordCorrupt(fileId))
  }

  /** What is written reads back unchanged. */
  lemma EncodeDecode(xs: seq<Schemas.Insight>, fileId: string)
    ensures DecodeDocument(EncodeInsights(xs), fileId) == Ok(xs)
  {
    var doc := EncodeInsights(xs);
    forall k | 0 <= k < |xs| ensures Schemas.FromRecord(doc.items[k]) == Ok(xs[k]) {
      Schemas.RecordRoundTrip(xs[k]);
    }
    assert DecodeItems(doc.items).Some?;
    var ys := DecodeItems(doc.items).value;
    assert |ys| == |xs|;
    assert forall k :: 0 <= k < |xs| ==> ys[k] == xs[k];
    assert ys == xs;
  }

  /** The insights files of one insights directory, keyed by path as
      `get_insights_path` builds it; each holds a JSON document. */
  class InsightStore {
    const insightDir: string
    var records: map<string, Json>

    constructor(insightDir: string)
      ensures this.insightDir == insightDir && records == map[]
    {
      this.insightDir := insightDir;
      records := map[];
    }

    /** `retrieve_saved_insights(file_id)` (services.py:173-187). */
    function Retrieve(fileId: string): (r: Result<seq<Schemas.Insight>>)
      reads this
      ensures Utils.InsightsPath(insightDir, fileId) !in records ==> r == Err(InsightsNotFound(fileId))
      ensures Utils.InsightsPath(insightDir, fileId) in records ==>
        r == DecodeDocument(records[Utils.InsightsPath(insightDir, fileId)], fileId)
      ensures r.Err? ==> r.error in {InsightsNotFound(fileId), RecordCorrupt(fileId)}
    {
      var path := Utils.InsightsPath(insightDir, fileId);
      if path !in records then Err(InsightsNotFound(fileId))
      else DecodeDocument(records[path], fileId)
    }

    /** `persist_insights(file_id, insights)` (services.py:159-170): the file
        is opened with mode "w", so any earlier record for the id is
        replaced. Afterwards the id reads back the insights, and every id
        with another insights path reads what it read before. */
    method Persist(fileId: string, insights: seq<Schemas.Insight>)
      modifies this
      ensures records == old(records)[Utils.InsightsPath(insightDir, fileId) := EncodeInsights(insights)]
      ensures Retrieve(fileId) == Ok(insights)
      ensures forall other ::
        (Utils.InsightsPath(insightDir, other) != Utils.InsightsPath(insightDir, fileId)
         ==> Retrieve(other) == old(Retrieve(other)))
    {
      records := records[Utils.InsightsPath(insightDir, fileId) := EncodeInsights(insights)];
      EncodeDecode(insights, fileId);
    }
  }

  /** Ids without a `/` in one directory never share a record: persisting
      for one id leaves every other id's result as it was. */
  lemma DistinctIdsDistinctRecords(insightDir: string, a: string, b: string)
    requires Utils.IsDir(insightDir) && '/' !in a && '/' !in b && a != b
    ensures Utils.InsightsPath(insightDir, a) != Utils.InsightsPath(insightDir, b)
  {
    if Utils.InsightsPath(insightDir, a) == Utils.InsightsPath(insightDir, b) {
      Utils.InsightsPathInjective(insightDir, a, b);
    }
  }
}
