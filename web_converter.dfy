/** The Flask upload pipeline (markdown_converter_web.py): the upload filter
    of `convert_files`, and the save, convert, tally and archive stages of
    `process_conversion`, which report through the global
    `conversion_progress` dictionary. The dependency probe, the disk, pandoc
    and the zip writer are parameters that say how each step turned out. */
module WebConverter {
  import opened Text

  newtype byte = b: int | 0 <= b < 256

  // ---------------------------------------------------------------------
  // Uploads (lines 45-78)
  // ---------------------------------------------------------------------

  /** What `file.read()` does: return the bytes, or raise with a message. */
  datatype ReadResult = Read(content: seq<byte>) | Raises(reason: string)

  /** One uploaded file part. A missing file name is the empty string. */
  datatype Upload = Upload(filename: string, body: ReadResult)

  /** An upload accepted for conversion, with its bytes. */
  datatype FileData = FileData(filename: string, content: seq<byte>)

  /** The characters Python's `str.strip()` removes (`str.isspace`). */
  predicate IsPythonSpace(c: char) {
    c == ' ' || '\t' <= c <= '\r' || '\U{1C}' <= c <= '\U{1F}' || c == '\U{85}' || c == '\U{A0}'
    || c == '\U{1680}' || '\U{2000}' <= c <= '\U{200A}' || c == '\U{2028}' || c == '\U{2029}'
    || c == '\U{202F}' || c == '\U{205F}' || c == '\U{3000}'
  }

  function LeadingSpaces(s: string): (n: nat)
    ensures n <= |s| && (forall i :: 0 <= i < n ==> IsPythonSpace(s[i]))
    ensures n < |s| ==> !IsPythonSpace(s[n])
  {
    if s != [] && IsPythonSpace(s[0]) then 1 + LeadingSpaces(s[1..]) else 0
  }

  function TrailingSpaces(s: string): (n: nat)
    ensures n <= |s| && (forall i :: |s| - n <= i < |s| ==> IsPythonSpace(s[i]))
    ensures n < |s| ==> !IsPythonSpace(s[|s| - n - 1])
  {
    if s != [] && IsPythonSpace(s[|s| - 1]) then 1 + TrailingSpaces(s[..|s| - 1]) else 0
  }

  /** `s.strip()`: the text between the leading and the trailing white
      space. It is empty exactly when `s` is all white space, and otherwise
      begins and ends with a character that is not. */
  function PyStrip(s: string): (r: string)
    ensures r == [] <==> forall i :: 0 <= i < |s| ==> IsPythonSpace(s[i])
    ensures r != [] ==> !IsPythonSpace(r[0]) && !IsPythonSpace(r[|r| - 1])
    ensures
      exists i, j :: 0 <= i <= j <= |s| && r == s[i..j] &&
        (forall k :: 0 <= k < i ==> IsPythonSpace(s[k])) && (forall k :: j <= k < |s| ==> IsPythonSpace(s[k]))
  {
    var i := LeadingSpaces(s);
    var n := TrailingSpaces(s[i..]);
    StripWindow(s, i, n);
    s[i..|s| - n]
  }

  /** The window `s[i..|s| - n]` left by the leading and trailing runs. */
  lemma StripWindow(s: string, i: nat, n: nat)
    requires i <= |s| && (forall k :: 0 <= k < i ==> IsPythonSpace(s[k])) && (i < |s| ==> !IsPythonSpace(s[i]))
    requires n <= |s| - i && (forall k :: |s[i..]| - n <= k < |s[i..]| ==> IsPythonSpace(s[i..][k]))
    requires n < |s| - i ==> !IsPythonSpace(s[i..][|s| - i - n - 1])
    ensures i <= |s| - n
    ensures forall k :: 0 <= k < i ==> IsPythonSpace(s[k])
    ensures forall k :: |s| - n <= k < |s| ==> IsPythonSpace(s[k])
    ensures i < |s| - n ==> !IsPythonSpace(s[i]) && !IsPythonSpace(s[|s| - n - 1])
    ensures i == |s| - n <==> forall k :: 0 <= k < |s| ==> IsPythonSpace(s[k])
  {
    var t := s[i..];
    assert |t| == |s| - i;
    if i < |s| - n {
      var m := |t| - n - 1;
      assert t[m] == s[i + m];
    }
    forall k | |s| - n <= k < |s|
      ensures IsPythonSpace(s[k])
    {
      assert s[k] == t[k - i];
    }
  }

  /** The test at line 59: a non-empty name, not blank after stripping,
      ending in ".md" (case-sensitive). */
  predicate KeepUpload(u: Upload) {
    u.filename != "" && PyStrip(u.filename) != "" && EndsWith(u.filename, ".md")
  }

  /** The emptiness and blankness tests are implied by the suffix test: an
      upload is kept exactly when its name ends in ".md". */
  lemma KeepUploadIsSuffixTest(u: Upload)
    ensures KeepUpload(u) <==> EndsWith(u.filename, ".md")
  {
    var f := u.filename;
    if EndsWith(f, ".md") {
      assert f[|f| - 3..] == ".md";
      assert f[|f| - 2] == 'm';
      assert !IsPythonSpace(f[|f| - 2]);
    }
  }

  /** The outcome of collecting the uploads: the accepted files in order, or
      the first accepted upload whose read raised. */
  datatype Gathered = Accepted(data: seq<FileData>) | ReadFailed(filename: string, reason: string)

  function Gather(uploads: seq<Upload>): Gathered {
    if uploads == [] then Accepted([])
    else
      var last := uploads[|uploads| - 1];
      match Gather(uploads[..|uploads| - 1])
      case ReadFailed(n, e) => ReadFailed(n, e)
      case Accepted(data) =>
        if !KeepUpload(last) then Accepted(data)
        else match last.body
          case Raises(e) => ReadFailed(last.filename, e)
          case Read(c) => Accepted(data + [FileData(last.filename, c)])
  }

  /** The uploads that pass the filter, in order. */
  function KeptUploads(uploads: seq<Upload>): (kept: seq<Upload>)
    ensures forall i :: 0 <= i < |kept| ==> KeepUpload(kept[i]) && kept[i] in uploads
  {
    if uploads == [] then []
    else
      var init := uploads[..|uploads| - 1];
      var last := uploads[|uploads| - 1];
      var rest := KeptUploads(init);
      assert forall u :: u in init ==> u in uploads;
      if KeepUpload(last) then rest + [last] else rest
  }

  /** The filter works upload by upload: filtering a concatenation filters
      each side and keeps their order. */
  lemma {:induction false} KeptUploadsAppend(a: seq<Upload>, b: seq<Upload>)
    ensures KeptUploads(a + b) == KeptUploads(a) + KeptUploads(b)
    decreases |b|
  {
    if b == [] {
      assert a + b == a;
    } else {
      var init, last := b[..|b| - 1], b[|b| - 1];
      assert a + b == (a + init) + [last] && b == init + [last];
      KeptUploadsSnoc(a + init, last);
      KeptUploadsSnoc(init, last);
      KeptUploadsAppend(a, init);
    }
  }

  lemma KeptUploadsSnoc(init: seq<Upload>, last: Upload)
    ensures KeptUploads(init + [last]) == KeptUploads(init) + if KeepUpload(last) then [last] else []
  {
    var s := init + [last];
    assert s[..|s| - 1] == init && s[|s| - 1] == last;
  }

  /** One upload is kept exactly when it passes the test. */
  lemma KeptUploadsSingle(u: Upload)
    ensures KeptUploads([u]) == if KeepUpload(u) then [u] else []
  {
    assert [u][..0] == [];
  }

  /** When no read fails, the accepted files are exactly the kept uploads,
      in order, each with the bytes it read. */
  lemma {:induction false} GatherAcceptsKeptUploads(uploads: seq<Upload>)
    requires Gather(uploads).Accepted?
    ensures var data, kept := Gather(uploads).data, KeptUploads(uploads);
      |data| == |kept| &&
      forall i :: 0 <= i < |data| ==>
        kept[i].body == Read(data[i].content) && data[i].filename == kept[i].filename
  {
    if uploads != [] {
      GatherAcceptsKeptUploads(uploads[..|uploads| - 1]);
    }
  }

  /** A failed read stays the answer however many uploads follow. */
  lemma {:induction false} ReadFailurePersists(uploads: seq<Upload>, k: nat)
    requires k <= |uploads| && Gather(uploads[..k]).ReadFailed?
    ensures Gather(uploads) == Gather(uploads[..k])
    decreases |uploads| - k
  {
    if k < |uploads| {
      assert uploads[..k + 1][..k] == uploads[..k];
      ReadFailurePersists(uploads, k + 1);
    } else {
      assert uploads[..k] == uploads;
    }
  }

  /** The reply of `/convert`: the started batch, or a 400 error. */
  datatype ConvertResponse = ConversionStarted(fileData: seq<FileData>) | BadRequest(error: string)

  const NoValidFiles := "No valid markdown files selected"

  function ReadErrorMessage(filename: string, reason: string): string {
    "Error reading file " + filename + ": " + reason
  }

  function Respond(uploads: seq<Upload>): ConvertResponse {
    match Gather(uploads)
    case ReadFailed(n, e) => BadRequest(ReadErrorMessage(n, e))
    case Accepted(data) => if data == [] then BadRequest(NoValidFiles) else ConversionStarted(data)
  }

  /** A batch starts exactly when some upload is kept and every kept upload
      reads; it then carries only ".md" files. Otherwise the reply is the
      first read error, or "No valid markdown files selected". */
  lemma RespondStartsOnlyMarkdown(uploads: seq<Upload>)
    ensures Respond(uploads).ConversionStarted? <==>
      Gather(uploads).Accepted? && |KeptUploads(uploads)| > 0
    ensures Respond(uploads).ConversionStarted? ==>
      forall i :: 0 <= i < |Respond(uploads).fileData| ==> EndsWith(Respond(uploads).fileData[i].filename, ".md")
    ensures Gather(uploads).Accepted? && KeptUploads(uploads) == [] ==> Respond(uploads) == BadRequest(NoValidFiles)
    ensures Gather(uploads).ReadFailed? ==>
      Respond(uploads) == BadRequest(ReadErrorMessage(Gather(uploads).filename, Gather(uploads).reason))
  {
    if Gather(uploads).Accepted? {
      GatherAcceptsKeptUploads(uploads);
      var kept := KeptUploads(uploads);
      forall i | 0 <= i < |kept|
        ensures EndsWith(kept[i].filename, ".md")
      {
        KeepUploadIsSuffixTest(kept[i]);
      }
    }
  }

  // ---------------------------------------------------------------------
  // Names (lines 129, 172)
  // ---------------------------------------------------------------------

  /** `filename.replace('/', '_').replace('\\', '_')`. */
  function SafeFilename(filename: string): string {
    ReplaceAll(ReplaceAll(filename, "/", "_"), "\\", "_")
  }

  /** The safe name has the same length, no slash or backslash, and every
      other character where it was. */
  lemma SafeFilenameReplacesSeparators(filename: string)
    ensures |SafeFilename(filename)| == |filename|
    ensures forall i :: 0 <= i < |filename| ==>
      SafeFilename(filename)[i] == (if filename[i] == '/' || filename[i] == '\\' then '_' else filename[i])
    ensures '/' !in SafeFilename(filename) && '\\' !in SafeFilename(filename)
  {
    var once := ReplaceAll(filename, "/", "_");
    ReplaceAllCharwise(filename, '/', '_');
    ReplaceAllCharwise(once, '\\', '_');
    assert "/" == ['/'] && "\\" == ['\\'] && "_" == ['_'];
  }

  /** pathlib's `stem`: the name without its last suffix, where a suffix
      starts at the last '.', which must be neither first nor last. */
  function Stem(name: string): string {
    match LastDot(name)
    case Some(i) => if 0 < i < |name| - 1 then name[..i] else name
    case None => name
  }

  function LastDot(s: string): (r: Option<nat>)
    ensures r.Some? ==> r.value < |s| && s[r.value] == '.' && forall j :: r.value < j < |s| ==> s[j] != '.'
    ensures r.None? ==> '.' !in s
  {
    if s == [] then None
    else if s[|s| - 1] == '.' then Some(|s| - 1)
    else
      var r := LastDot(s[..|s| - 1]);
      assert s == s[..|s| - 1] + [s[|s| - 1]];
      r
  }

  /** For a name "x.md" with x non-empty the stem is x, so the output is
      "x.docx"; the bare name ".md" is its own stem. */
  lemma StemOfMarkdownName(base: string)
    ensures base != [] ==> Stem(base + ".md") == base
    ensures Stem(".md") == ".md"
  {
    var s := base + ".md";
    assert s[|s| - 1] == 'd' && s[|s| - 2] == 'm' && s[|s| - 3] == '.';
    assert s[..|s| - 1][..|s| - 2] == s[..|s| - 2];
    assert LastDot(s[..|s| - 2]) == Some(|s| - 3);
    assert LastDot(s) == Some(|s| - 3);
    assert s[..|s| - 3] == base;
    var m := ".md";
    assert LastDot(m) == Some(0);
  }

  function OutputFilename(name: string): string {
    Stem(name) + ".docx"
  }

  // ---------------------------------------------------------------------
  // Conversion records and counts (lines 162-197)
  // ---------------------------------------------------------------------

  datatype RecordStatus = Success | Failed

  /** One entry of `converted_files`. */
  datatype FileRecord = FileRecord(name: string, status: RecordStatus, output: Option<string>)

  /** How converting one saved file went: whether the input still exists,
      whether the converter reported success, and whether it left a
      non-empty output file. An exception counts as a failed conversion. */
  datatype ConversionRun = ConversionRun(inputExists: bool, converted: bool, outputWritten: bool)

  /** Recording one more file extends the records by its record alone. */
  lemma RecordsStep(names: seq<string>, runs: seq<ConversionRun>, i: nat)
    requires |runs| == |names| && i < |names|
    ensures Records(names[..i + 1], runs[..i + 1]) == Records(names[..i], runs[..i]) + [RecordFor(names[i], runs[i])]
  {
    assert names[..i + 1][..i] == names[..i] && runs[..i + 1][..i] == runs[..i];
  }

  /** Recording one more file extends the records by its record and adds
      that record to exactly one of the counts. */
  lemma TallyStep(names: seq<string>, runs: seq<ConversionRun>, i: nat)
    requires |runs| == |names| && i < |names|
    ensures var prev, r := Records(names[..i], runs[..i]), RecordFor(names[i], runs[i]);
      Records(names[..i + 1], runs[..i + 1]) == prev + [r] &&
      SuccessCount(prev + [r]) == SuccessCount(prev) + (if r.status == Success then 1 else 0) &&
      FailCount(prev + [r]) == FailCount(prev) + (if r.status == Failed then 1 else 0)
  {
    RecordsStep(names, runs, i);
    CountStep(Records(names[..i], runs[..i]), RecordFor(names[i], runs[i]));
  }

  /** Appending a record adds it to exactly one of the counts. */
  lemma CountStep(records: seq<FileRecord>, r: FileRecord)
    ensures SuccessCount(records + [r]) == SuccessCount(records) + (if r.status == Success then 1 else 0)
    ensures FailCount(records + [r]) == FailCount(records) + (if r.status == Failed then 1 else 0)
  {
    assert (records + [r])[..|records|] == records;
  }

  /** The record of one file: success with output `stem + ".docx"` exactly
      when the input exists and the converter wrote a non-empty output. */
  function RecordFor(name: string, run: ConversionRun): (r: FileRecord)
    ensures r.name == name
    ensures r.status == Success <==> r.output == Some(OutputFilename(name))
    ensures r.status == Failed <==> r.output == None
    ensures r.status == Success <==> run.inputExists && run.converted && run.outputWritten
  {
    if run.inputExists && run.converted && run.outputWritten
    then FileRecord(name, Success, Some(OutputFilename(name)))
    else FileRecord(name, Failed, None)
  }

  function Records(names: seq<string>, runs: seq<ConversionRun>): (records: seq<FileRecord>)
    requires |runs| == |names|
    ensures |records| == |names|
    ensures forall i :: 0 <= i < |names| ==> records[i] == RecordFor(names[i], runs[i])
  {
    if names == [] then []
    else Records(names[..|names| - 1], runs[..|runs| - 1]) + [RecordFor(names[|names| - 1], runs[|runs| - 1])]
  }

  function SuccessCount(records: seq<FileRecord>): nat {
    if records == [] then 0
    else SuccessCount(records[..|records| - 1]) + (if records[|records| - 1].status == Success then 1 else 0)
  }

  function FailCount(records: seq<FileRecord>): nat {
    if records == [] then 0
    else FailCount(records[..|records| - 1]) + (if records[|records| - 1].status == Failed then 1 else 0)
  }

  /** Each record is counted once: `successful + failed == len(converted_files)`. */
  lemma {:induction false} TallyCoversEveryRecord(records: seq<FileRecord>)
    ensures SuccessCount(records) + FailCount(records) == |records|
  {
    if records != [] {
      TallyCoversEveryRecord(records[..|records| - 1]);
    }
  }

  /** How many records are written to the zip: successes with an output
      whose file is still present (`present`). */
  function ArchivedCount(records: seq<FileRecord>, present: seq<bool>): nat
    requires |present| == |records|
  {
    if records == [] then 0
    else
      var last := records[|records| - 1];
      ArchivedCount(records[..|records| - 1], present[..|present| - 1])
      + (if last.status == Success && last.output.Some? && last.output.value != "" && present[|present| - 1] then 1 else 0)
  }

  /** Only successes are archived: `files_added <= successful`. */
  lemma {:induction false} ArchivedAtMostSuccessful(records: seq<FileRecord>, present: seq<bool>)
    requires |present| == |records|
    ensures ArchivedCount(records, present) <= SuccessCount(records)
  {
    if records != [] {
      ArchivedAtMostSuccessful(records[..|records| - 1], present[..|present| - 1]);
    }
  }

  /** The final message: the success count, and the failure count only when
      some file failed. */
  function CompletionMessage(successful: nat, failed: nat): string {
    "Conversion complete! " + NatToString(successful) + " files converted successfully"
    + (if failed > 0 then ", " + NatToString(failed) + " files failed" else "")
  }

  /** The failure clause is present exactly when a file failed. */
  lemma CompletionMessageReportsFailures(successful: nat, failed: nat)
    ensures failed > 0 <==> EndsWith(CompletionMessage(successful, failed), " files failed")
    ensures failed > 0 ==> EndsWith(CompletionMessage(successful, failed), ", " + NatToString(failed) + " files failed")
  {
    var m := CompletionMessage(successful, failed);
    var head := "Conversion complete! " + NatToString(successful) + " files converted successfully";
    if failed > 0 {
      var tail := ", " + NatToString(failed) + " files failed";
      assert m == head + tail;
      assert m[|m| - |tail|..] == tail;
      assert m[|m| - 13..] == tail[|tail| - 13..];
    } else {
      assert m == head;
      assert m[|m| - 1] == 'y';
    }
  }

  // ---------------------------------------------------------------------
  // The progress record and the pipeline (lines 33, 51, 94-241)
  // ---------------------------------------------------------------------

  datatype Status = Idle | Starting | Error | Completed

  /** A snapshot of `conversion_progress`. */
  datatype Progress = Progress(status: Status, progress: int, message: string, files: seq<FileRecord>, outputPath: string)

  /** The result of `import pypandoc; pypandoc.get_pandoc_version()`. */
  datatype Dependencies = Ready | MissingPypandoc | MissingPandoc

  /** What writing one upload to disk does: it is written, or it raises. */
  datatype SaveOutcome = Written | SaveRaises(reason: string)

  const PypandocMissing := "Error: pypandoc not installed. Please install with: pip install pypandoc"
  const PandocMissing := "Error: pandoc not installed. Please install from https://pandoc.org/"
  const NoMarkdownFound := "No markdown files found in uploaded files"
  const NothingConverted := "No files were successfully converted"
  const CreatingPackage := "Creating download package..."

  /** The error a save step reports, if any. A written file that is empty
      fails the size check. */
  function SaveMessage(f: FileData, save: SaveOutcome): Option<string> {
    match save
    case SaveRaises(e) => Some("Error saving file " + f.filename + ": " + e)
    case Written => if |f.content| == 0 then Some("Failed to save file " + f.filename + " - file is empty") else None
  }

  /** The first save error of the batch, if any. */
  function SaveError(fileData: seq<FileData>, saves: seq<SaveOutcome>): Option<string>
    requires |saves| == |fileData|
  {
    if fileData == [] then None
    else match SaveError(fileData[..|fileData| - 1], saves[..|saves| - 1])
      case Some(m) => Some(m)
      case None => SaveMessage(fileData[|fileData| - 1], saves[|saves| - 1])
  }

  /** The names of the saved files, which the records carry. */
  function SafeNames(fileData: seq<FileData>): (names: seq<string>)
    ensures |names| == |fileData|
    ensures forall i :: 0 <= i < |fileData| ==> names[i] == SafeFilename(fileData[i].filename)
  {
    if fileData == [] then []
    else SafeNames(fileData[..|fileData| - 1]) + [SafeFilename(fileData[|fileData| - 1].filename)]
  }

  /** What `process_conversion` leaves in `conversion_progress`, starting
      from `start`, stage by stage. */
  function Processed(start: Progress, fileData: seq<FileData>, deps: Dependencies,
                     saves: seq<SaveOutcome>, runs: seq<ConversionRun>, present: seq<bool>,
                     zipError: Option<string>, zipPath: string): Progress
    requires |saves| == |fileData| && |runs| == |fileData| && |present| == |fileData|
  {
    match deps
    case MissingPypandoc => start.(status := Error, progress := 5, message := PypandocMissing)
    case MissingPandoc => start.(status := Error, progress := 5, message := PandocMissing)
    case Ready =>
      FilesProcessed(start.(progress := 10, message := "Processing uploaded files..."),
                     fileData, saves, runs, present, zipError, zipPath)
  }

  /** The stages after the dependency check: saving the uploads, converting
      them, and packaging the results. */
  function FilesProcessed(start: Progress, fileData: seq<FileData>,
                          saves: seq<SaveOutcome>, runs: seq<ConversionRun>, present: seq<bool>,
                          zipError: Option<string>, zipPath: string): Progress
    requires |saves| == |fileData| && |runs| == |fileData| && |present| == |fileData|
  {
    match SaveError(fileData, saves)
    case Some(m) => start.(status := Error, message := m)
    case None => SavedProcessed(start, SafeNames(fileData), runs, present, zipError, zipPath)
  }

  /** The stages after the uploads were saved under `names`: converting
      them and packaging the results. */
  function SavedProcessed(start: Progress, names: seq<string>, runs: seq<ConversionRun>, present: seq<bool>,
                          zipError: Option<string>, zipPath: string): Progress
    requires |runs| == |names| && |present| == |names|
  {
    if names == [] then start.(status := Error, message := NoMarkdownFound)
    else
      var records := Records(names, runs);
      Packaged(start.(files := records, progress := 90, message := CreatingPackage), present, zipError, zipPath)
  }

  /** The packaging stage, from the state holding the records: a failed
      archive, an empty archive, or completion with the archive's path. */
  function Packaged(packaging: Progress, present: seq<bool>, zipError: Option<string>, zipPath: string): Progress
    requires |present| == |packaging.files|
  {
    match zipError
    case Some(e) => packaging.(status := Error, message := "Error creating download package: " + e)
    case None =>
      var records := packaging.files;
      if ArchivedCount(records, present) == 0 then packaging.(status := Error, message := NothingConverted)
      else packaging.(status := Completed, progress := 100, outputPath := zipPath,
                      message := CompletionMessage(SuccessCount(records), FailCount(records)))
  }

  /** "completed" is reached only past the zip stage, with progress 100, the
      zip path, at least one archived file and the counts of the batch;
      otherwise the output path is left as it was. */
  lemma CompletedOnlyAfterArchiving(start: Progress, fileData: seq<FileData>, deps: Dependencies,
                                    saves: seq<SaveOutcome>, runs: seq<ConversionRun>, present: seq<bool>,
                                    zipError: Option<string>, zipPath: string)
    requires |saves| == |fileData| && |runs| == |fileData| && |present| == |fileData|
    ensures var p := Processed(start, fileData, deps, saves, runs, present, zipError, zipPath);
      var records := Records(SafeNames(fileData), runs);
      (p.status == Completed <==>
         deps == Ready && SaveError(fileData, saves).None? && fileData != [] && zipError.None? &&
         ArchivedCount(records, present) > 0) &&
      (p.status == Completed ==>
         p.progress == 100 && p.outputPath == zipPath && p.files == records &&
         p.message == CompletionMessage(SuccessCount(records), FailCount(records))) &&
      (p.status != Completed ==> p.outputPath == start.outputPath && p.status == Error)
  {
  }

  /** An empty upload stops the batch before any conversion: the status is
      "error" and no record is written. */
  lemma EmptyUploadAbortsBatch(start: Progress, fileData: seq<FileData>, saves: seq<SaveOutcome>,
                               runs: seq<ConversionRun>, present: seq<bool>,
                               zipError: Option<string>, zipPath: string, k: nat)
    requires |saves| == |fileData| && |runs| == |fileData| && |present| == |fileData|
    requires k < |fileData| && |fileData[k].content| == 0
    ensures var p := Processed(start, fileData, Ready, saves, runs, present, zipError, zipPath);
      p.status == Error && p.files == start.files && p.outputPath == start.outputPath
  {
    SaveErrorAt(fileData, saves, k);
  }

  /** A step that reports an error makes the whole save stage report one. */
  lemma {:induction false} SaveErrorAt(fileData: seq<FileData>, saves: seq<SaveOutcome>, k: nat)
    requires |saves| == |fileData| && k < |fileData|
    requires SaveMessage(fileData[k], saves[k]).Some?
    ensures SaveError(fileData, saves).Some?
  {
    var n := |fileData|;
    if k < n - 1 {
      SaveErrorAt(fileData[..n - 1], saves[..n - 1], k);
    }
  }

  /** Every file that reaches the conversion stage is recorded and counted
      once, and only successes are archived. */
  lemma RecordsCoverBatch(fileData: seq<FileData>, runs: seq<ConversionRun>, present: seq<bool>)
    requires |runs| == |fileData| && |present| == |fileData|
    ensures var records := Records(SafeNames(fileData), runs);
      |records| == |fileData| &&
      SuccessCount(records) + FailCount(records) == |fileData| &&
      ArchivedCount(records, present) <= SuccessCount(records)
  {
    var records := Records(SafeNames(fileData), runs);
    TallyCoversEveryRecord(records);
    ArchivedAtMostSuccessful(records, present);
  }

  /** The global `conversion_progress` dictionary. */
  class ConversionProgress {
    var status: Status
    var progress: int
    var message: string
    var files: seq<FileRecord>
    var outputPath: string

    function State(): Progress
      reads this
    {
      Progress(status, progress, message, files, outputPath)
    }

    /** The value at start-up (line 33). */
    constructor ()
      ensures State() == Progress(Idle, 0, "", [], "")
    {
      status, progress, message, files, outputPath := Idle, 0, "", [], "";
    }

    /** `convert_files`: resets the record, reads every kept upload in order,
        and answers with the batch, the first read error, or the error for
        an empty batch. */
    method HandleConvert(uploads: seq<Upload>) returns (response: ConvertResponse)
      modifies this
      ensures State() == Progress(Starting, 0, "Starting conversion...", [], "")
      ensures response == Respond(uploads)
    {
      status, progress, message, files, outputPath := Starting, 0, "Starting conversion...", [], "";
      var fileData: seq<FileData> := [];
      var i := 0;
      while i < |uploads|
        invariant 0 <= i <= |uploads|
        invariant Gather(uploads[..i]) == Accepted(fileData)
      {
        var u := uploads[i];
        assert uploads[..i + 1][..i] == uploads[..i] && uploads[..i + 1][i] == u;
        if u.filename != "" && PyStrip(u.filename) != "" && EndsWith(u.filename, ".md") {
          match u.body {
            case Raises(e) =>
              ReadFailurePersists(uploads, i + 1);
              return BadRequest(ReadErrorMessage(u.filename, e));
            case Read(c) =>
              fileData := fileData + [FileData(u.filename, c)];
          }
        }
        i := i + 1;
      }
      assert uploads[..i] == uploads;
      if fileData == [] {
        return BadRequest(NoValidFiles);
      }
      return ConversionStarted(fileData);
    }

    /** `process_conversion`: checks the dependencies, saves every file,
        converts each saved file, archives the successes, and leaves the
        outcome in the record. */
    method ProcessConversion(fileData: seq<FileData>, deps: Dependencies, saves: seq<SaveOutcome>,
                             runs: seq<ConversionRun>, present: seq<bool>,
                             zipError: Option<string>, zipPath: string)
      requires |saves| == |fileData| && |runs| == |fileData| && |present| == |fileData|
      modifies this
      ensures State() == Processed(old(State()), fileData, deps, saves, runs, present, zipError, zipPath)
    {
      message := "Checking dependencies...";
      progress := 5;
      if deps == MissingPypandoc {
        status, message := Error, PypandocMissing;
        return;
      } else if deps == MissingPandoc {
        status, message := Error, PandocMissing;
        return;
      }
      message := "Processing uploaded files...";
      progress := 10;
      ProcessFiles(fileData, saves, runs, present, zipError, zipPath);
    }

    /** Saves the uploads (lines 116-148), then converts and packages them. */
    method ProcessFiles(fileData: seq<FileData>, saves: seq<SaveOutcome>,
                        runs: seq<ConversionRun>, present: seq<bool>,
                        zipError: Option<string>, zipPath: string)
      requires |saves| == |fileData| && |runs| == |fileData| && |present| == |fileData|
      modifies this
      ensures State() == FilesProcessed(old(State()), fileData, saves, runs, present, zipError, zipPath)
    {
      var names := SaveAll(fileData, saves);
      if names.None? {
        return;
      }
      ConvertSaved(names.value, runs, present, zipError, zipPath);
    }

    /** Converts the saved files (lines 150-197) and packages the results. */
    method ConvertSaved(markdownFiles: seq<string>, runs: seq<ConversionRun>, present: seq<bool>,
                        zipError: Option<string>, zipPath: string)
      requires |runs| == |markdownFiles| && |present| == |markdownFiles|
      modifies this
      ensures State() == SavedProcessed(old(State()), markdownFiles, runs, present, zipError, zipPath)
    {
      if markdownFiles == [] {
        status, message := Error, NoMarkdownFound;
        return;
      }
      message := "Found " + NatToString(|markdownFiles|) + " markdown files";
      progress := 20;

      var records, successful, failed := ConvertAll(markdownFiles, runs);
      files := records;
      progress := 90;
      message := CreatingPackage;
      Package(present, successful, failed, zipError, zipPath);
    }

    /** Writes the archive (lines 199-237): an archiving error, an archive
        without any converted file, or completion. `successful` and `failed`
        are the counters of the conversion loop. */
    method Package(present: seq<bool>, successful: nat, failed: nat, zipError: Option<string>, zipPath: string)
      requires |present| == |files|
      requires successful == SuccessCount(files) && failed == FailCount(files)
      modifies this
      ensures State() == Packaged(old(State()), present, zipError, zipPath)
    {
      if zipError.Some? {
        status, message := Error, "Error creating download package: " + zipError.value;
        return;
      }
      var filesAdded := CountArchived(files, present);
      if filesAdded == 0 {
        status, message := Error, NothingConverted;
        return;
      }
      status := Completed;
      progress := 100;
      message := CompletionMessage(successful, failed);
      outputPath := zipPath;
    }

    method SaveAll(fileData: seq<FileData>, saves: seq<SaveOutcome>) returns (names: Option<seq<string>>)
      requires |saves| == |fileData|
      modifies this
      ensures SaveError(fileData, saves).None? ==> names == Some(SafeNames(fileData)) && State() == old(State())
      ensures SaveError(fileData, saves).Some? ==>
        names == None && State() == old(State()).(status := Error, message := SaveError(fileData, saves).value)
    {
      var saved: seq<string> := [];
      var i := 0;
      while i < |fileData|
        invariant 0 <= i <= |fileData|
        invariant SaveError(fileData[..i], saves[..i]).None?
        invariant saved == SafeNames(fileData[..i])
      {
        assert fileData[..i + 1][..i] == fileData[..i] && saves[..i + 1][..i] == saves[..i];
        assert fileData[..i + 1][i] == fileData[i] && saves[..i + 1][i] == saves[i];
        var failure := SaveMessage(fileData[i], saves[i]);
        if failure.Some? {
          SaveErrorPersists(fileData, saves, i + 1);
          status, message := Error, failure.value;
          return None;
        }
        saved := saved + [SafeFilename(fileData[i].filename)];
        i := i + 1;
      }
      assert fileData[..i] == fileData && saves[..i] == saves;
      return Some(saved);
    }

    /** One pass of the conversion loop: announces the file, then records
        it as failed when it is missing, as a success when it converted and
        its output was written, and as failed otherwise. */
    method ConvertFile(name: string, run: ConversionRun) returns (entry: FileRecord)
      modifies this
      ensures entry == RecordFor(name, run)
      ensures message == "Converting " + name + "..."
      ensures status == old(status) && files == old(files) && outputPath == old(outputPath)
    {
      message := "Converting " + name + "...";
      var docxFilename := OutputFilename(name);
      if !run.inputExists {
        entry := FileRecord(name, Failed, None);
      } else if run.converted && run.outputWritten {
        entry := FileRecord(name, Success, Some(docxFilename));
      } else {
        entry := FileRecord(name, Failed, None);
      }
    }

    /** The conversion loop (lines 162-197): one record per file, each
        counted as a success or a failure. */
    method ConvertAll(names: seq<string>, runs: seq<ConversionRun>)
      returns (records: seq<FileRecord>, successful: nat, failed: nat)
      requires |runs| == |names|
      modifies this
      ensures records == Records(names, runs)
      ensures successful == SuccessCount(records) && failed == FailCount(records)
      ensures status == old(status) && files == old(files) && outputPath == old(outputPath)
    {
      records := [];
      successful, failed := 0, 0;
      var i := 0;
      while i < |names|
        invariant 0 <= i <= |names|
        invariant records == Records(names[..i], runs[..i])
        invariant successful == SuccessCount(records) && failed == FailCount(records)
        invariant status == old(status) && files == old(files) && outputPath == old(outputPath)
      {
        var entry := ConvertFile(names[i], runs[i]);
        if entry.status == Success {
          successful := successful + 1;
        } else {
          failed := failed + 1;
        }
        TallyStep(names, runs, i);
        records := records + [entry];
        i := i + 1;
      }
      assert names[..i] == names && runs[..i] == runs;
    }
  }

  /** A save error stays the answer however many files follow. */
  lemma {:induction false} SaveErrorPersists(fileData: seq<FileData>, saves: seq<SaveOutcome>, k: nat)
    requires |saves| == |fileData| && k <= |fileData|
    requires SaveError(fileData[..k], saves[..k]).Some?
    ensures SaveError(fileData, saves) == SaveError(fileData[..k], saves[..k])
    decreases |fileData| - k
  {
    if k < |fileData| {
      assert fileData[..k + 1][..k] == fileData[..k] && saves[..k + 1][..k] == saves[..k];
      SaveErrorPersists(fileData, saves, k + 1);
    } else {
      assert fileData[..k] == fileData && saves[..k] == saves;
    }
  }

  /** The zip loop (lines 207-215): how many records are written. */
  method CountArchived(records: seq<FileRecord>, present: seq<bool>) returns (filesAdded: nat)
    requires |present| == |records|
    ensures filesAdded == ArchivedCount(records, present)
  {
    filesAdded := 0;
    var i := 0;
    while i < |records|
      invariant 0 <= i <= |records|
      invariant filesAdded == ArchivedCount(records[..i], present[..i])
    {
      assert records[..i + 1][..i] == records[..i] && present[..i + 1][..i] == present[..i];
      var r := records[i];
      if r.status == Success && r.output.Some? && r.output.value != "" && present[i] {
        filesAdded := filesAdded + 1;
      }
      i := i + 1;
    }
    assert records[..i] == records && present[..i] == present;
  }
}
