/** The browser converter's batch controller (`MarkdownConverter` in
    netlify-version/converter.js): the file selection, the convert button,
    the per-file conversion into a five-part package, the output file name
    and the success/failure tally. The markdown renderer (`marked.parse`) is
    a parameter; the page is reduced to the state the handlers change. */
module BrowserConverter {
  import opened Text
  import opened HtmlToWordML
  import opened DocxStructure

  /** A file the user chose. `text` is None when reading it fails. */
  datatype SelectedFile = SelectedFile(name: string, text: Option<string>)

  /** The fixed templates of the package. */
  datatype Template = ContentTypesTemplate | PackageRelsTemplate | DocumentRelsTemplate | StylesTemplate

  /** What a part holds: a fixed template, or the document part built from
      the rendered HTML. `ContentText` gives the text written. */
  datatype PartContent = Fixed(template: Template) | DocumentFrom(html: string)

  /** One named part of the package handed to the zip writer. */
  datatype Part = Part(path: string, content: PartContent)

  /** The text of a part, as the template methods produce it. */
  function ContentText(c: PartContent): string {
    match c
    case Fixed(t) => TemplateText(t)
    case DocumentFrom(html) => DocumentXml(ConvertHtmlToWordML(html))
  }

  function TemplateText(t: Template): string {
    match t
    case ContentTypesTemplate => ContentTypesXml()
    case PackageRelsTemplate => RelsXml()
    case DocumentRelsTemplate => DocumentRelsXml()
    case StylesTemplate => StylesXml()
  }

  /** A package offered for download under a file name. */
  datatype Download = Download(fileName: string, parts: seq<Part>)

  /** One line of the results list: the file name and whether it converted. */
  datatype ResultRow = ResultRow(fileName: string, converted: bool)

  /** The markdown-to-HTML renderer; None when it throws. */
  type Renderer = string -> Option<string>

  // ---------------------------------------------------------------------
  // Output name (line 99)
  // ---------------------------------------------------------------------

  /** `name.replace('.md', '.docx')`: the first ".md" anywhere in the name is
      replaced, not the extension. */
  function OutputName(name: string): string {
    ReplaceFirst(name, ".md", ".docx")
  }

  /** Only the first occurrence is replaced: "a.md.md" becomes "a.docx.md". */
  lemma OutputNameReplacesFirstOnly()
    ensures OutputName("a.md.md") == "a.docx.md"
  {
    var s := "a.md.md";
    assert OccursAt(s, ".md", 1);
    assert !OccursAt(s, ".md", 0) by { assert s[0] != '.'; }
    ReplaceFirstAt(s, ".md", ".docx", 1);
    assert s[..1] == "a" && s[4..] == ".md";
  }

  /** A name without ".md" is kept as it is. */
  lemma OutputNameWithoutMarkdown(name: string)
    requires !Contains(name, ".md")
    ensures OutputName(name) == name
  {
    ReplaceFirstAbsent(name, ".md", ".docx");
  }

  /** When ".md" occurs only as the extension, the extension is replaced. */
  lemma OutputNameOfMarkdownFile(base: string)
    requires !Contains(base, ".md")
    ensures OutputName(base + ".md") == base + ".docx"
  {
    var s := base + ".md";
    var k := |base|;
    assert s[k..k + 3] == ".md";
    forall j | 0 <= j < k
      ensures !OccursAt(s, ".md", j)
    {
      if j + 3 <= k {
        assert s[j..j + 3] == base[j..j + 3];
        assert !OccursAt(base, ".md", j);
      } else if j == k - 1 {
        assert s[j + 1] == s[k] == '.';
        assert s[j..j + 3][1] == '.' && ".md"[1] == 'm';
      } else {
        assert s[j + 2] == s[k] == '.';
        assert s[j..j + 3][2] == '.' && ".md"[2] == 'd';
      }
    }
    ReplaceFirstAt(s, ".md", ".docx", k);
    assert s[..k] == base && s[k + 3..] == [];
  }

  // ---------------------------------------------------------------------
  // Drop filter (line 35)
  // ---------------------------------------------------------------------

  /** The dropped files whose names end in ".md" (case-sensitive), in order. */
  function MarkdownOnly(files: seq<SelectedFile>): (kept: seq<SelectedFile>)
    ensures forall i :: 0 <= i < |kept| ==> EndsWith(kept[i].name, ".md")
    ensures forall f :: f in files && EndsWith(f.name, ".md") ==> f in kept
    ensures multiset(kept) <= multiset(files)
  {
    if files == [] then []
    else
      var rest := MarkdownOnly(files[1..]);
      assert files == [files[0]] + files[1..];
      if EndsWith(files[0].name, ".md") then [files[0]] + rest else rest
  }

  /** The filter works file by file: filtering a concatenation filters each
      side and keeps their order. */
  lemma {:induction false} MarkdownOnlyAppend(a: seq<SelectedFile>, b: seq<SelectedFile>)
    ensures MarkdownOnly(a + b) == MarkdownOnly(a) + MarkdownOnly(b)
  {
    if a == [] {
      assert a + b == b;
    } else {
      var s := a + b;
      assert s[0] == a[0] && s[1..] == a[1..] + b;
      var head := if EndsWith(a[0].name, ".md") then [a[0]] else [];
      assert MarkdownOnly(s) == head + MarkdownOnly(a[1..] + b);
      assert MarkdownOnly(a) == head + MarkdownOnly(a[1..]);
      MarkdownOnlyAppend(a[1..], b);
    }
  }

  /** One dropped file is kept exactly when its name ends in ".md". */
  lemma MarkdownOnlySingle(f: SelectedFile)
    ensures MarkdownOnly([f]) == if EndsWith(f.name, ".md") then [f] else []
  {
    assert [f][1..] == [];
  }

  // ---------------------------------------------------------------------
  // Package parts (lines 146-168)
  // ---------------------------------------------------------------------

  /** The names of the parts written, in the order they are added: five
      distinct names, none of them the numbering part. */
  function PartPaths(): (paths: seq<string>)
    ensures paths == [ContentTypesPath, PackageRelsPath, DocumentRelsPath, StylesPath, DocumentPath]
    ensures |paths| == 5 && paths[4] == DocumentPath
    ensures forall i, j :: 0 <= i < j < |paths| ==> paths[i] != paths[j]
    ensures forall i :: 0 <= i < |paths| ==> paths[i] != NumberingPath
  {
    [ContentTypesPath, PackageRelsPath, DocumentRelsPath, StylesPath, DocumentPath]
  }

  /** The parts written for one document: the four fixed templates and the
      document part, built from the rendered HTML. */
  function PackageParts(html: string): (parts: seq<Part>)
    ensures |parts| == 5
    ensures forall i :: 0 <= i < 5 ==> parts[i].path == PartPaths()[i]
    ensures parts[0].content == Fixed(ContentTypesTemplate) && parts[1].content == Fixed(PackageRelsTemplate)
    ensures parts[2].content == Fixed(DocumentRelsTemplate) && parts[3].content == Fixed(StylesTemplate)
    ensures parts[4].content == DocumentFrom(html)
  {
    var paths := PartPaths();
    [ Part(paths[0], Fixed(ContentTypesTemplate)),
      Part(paths[1], Fixed(PackageRelsTemplate)),
      Part(paths[2], Fixed(DocumentRelsTemplate)),
      Part(paths[3], Fixed(StylesTemplate)),
      Part(paths[4], DocumentFrom(html)) ]
  }

  /** The document part is the fixed head, the rewritten HTML verbatim, and
      the fixed tail; the rewritten HTML holds at least one paragraph. */
  lemma DocumentPartHoldsRewrittenHtml(html: string)
    ensures BodyOf(ContentText(PackageParts(html)[4].content)) == Some(ConvertHtmlToWordML(html))
    ensures Contains(ConvertHtmlToWordML(html), "<w:p>")
  {
    assert PackageParts(html)[4].content == DocumentFrom(html);
    DocumentPartText(html);
  }

  /** The document part's text is the wrapper around the rewritten HTML. */
  lemma DocumentPartText(html: string)
    ensures BodyOf(ContentText(DocumentFrom(html))) == Some(ConvertHtmlToWordML(html))
  {
    var body := ConvertHtmlToWordML(html);
    assert ContentText(DocumentFrom(html)) == DocumentXml(body);
    DocumentBodyRoundTrip(body);
  }

  /** The package holds exactly five parts under distinct names, and
      word/numbering.xml is not one of them. */
  lemma PackageHasFiveDistinctParts(html: string)
    ensures |PackageParts(html)| == 5
    ensures forall i, j :: 0 <= i < j < 5 ==> PackageParts(html)[i].path != PackageParts(html)[j].path
    ensures forall i :: 0 <= i < 5 ==> PackageParts(html)[i].path != NumberingPath
  {
    var parts := PackageParts(html);
    var paths := PartPaths();
    assert forall i :: 0 <= i < 5 ==> parts[i].path == paths[i];
  }

  /** Every part but the manifest itself has a content type in the manifest:
      the two relationship parts by their extension, the styles and the
      document parts by their overrides. */
  lemma PackagedPartsHaveContentTypes()
    ensures ContentTypeOf(PartName(PartPaths()[1])) == Some(RelationshipsType)
    ensures ContentTypeOf(PartName(PartPaths()[2])) == Some(RelationshipsType)
    ensures ContentTypeOf(PartName(PartPaths()[3])) == Some(StylesType)
    ensures ContentTypeOf(PartName(PartPaths()[4])) == Some(MainDocumentType)
  {
    assert PartPaths() == [ContentTypesPath, PackageRelsPath, DocumentRelsPath, StylesPath, DocumentPath];
    NamedPartTypes();
  }

  /** The content types of the four parts after `[Content_Types].xml`,
      by their paths. */
  lemma NamedPartTypes()
    ensures ContentTypeOf(PartName(PackageRelsPath)) == Some(RelationshipsType)
    ensures ContentTypeOf(PartName(DocumentRelsPath)) == Some(RelationshipsType)
    ensures ContentTypeOf(PartName(StylesPath)) == Some(StylesType)
    ensures ContentTypeOf(PartName(DocumentPath)) == Some(MainDocumentType)
  {
    RelationshipPartType(PartName(PackageRelsPath));
    RelationshipPartType(PartName(DocumentRelsPath));
    OverriddenPartTypes();
  }

  /** The manifest and the document relationships announce a numbering part
      that the package does not contain. */
  lemma NumberingPartIsAnnouncedButMissing(html: string)
    ensures ContentTypeOf(PartName(NumberingPath)) == Some(NumberingType)
    ensures DocumentRelationships()[1].target == "numbering.xml"
    ensures forall i :: 0 <= i < 5 ==> PackageParts(html)[i].path != "word/" + DocumentRelationships()[1].target
  {
    OverriddenPartTypes();
    NumberingRelationshipTarget();
    var parts := PackageParts(html);
    assert forall i :: 0 <= i < 5 ==> parts[i].path == PartPaths()[i];
  }

  /** The style ids the rewriter emits in `w:pStyle` are declared heading
      styles. */
  lemma RewrittenHeadingStylesAreDeclared(level: string)
    requires level == "1" || level == "2" || level == "3"
    ensures Find(Styles(), StyleId, "Heading" + level).Some?
    ensures Find(Styles(), StyleId, "Heading" + level).value.basedOn == Some("Normal")
  {
    var styles := Styles();
    if level == "1" {
      assert styles[1].id == "Heading" + level;
    } else if level == "2" {
      assert styles[2].id == "Heading" + level;
    } else {
      assert styles[3].id == "Heading" + level;
    }
  }

  /** `convertMarkdownToDocx`: render, rewrite, package. None when the
      renderer throws. */
  function ConvertMarkdownToDocx(text: string, render: Renderer): (r: Option<seq<Part>>)
    ensures r.Some? <==> render(text).Some?
    ensures r.Some? ==> r.value == PackageParts(render(text).value)
    ensures r.Some? ==> |r.value| == 5 && r.value[4].content == DocumentFrom(render(text).value)
  {
    match render(text)
    case None => None
    case Some(html) => Some(PackageParts(html))
  }

  // ---------------------------------------------------------------------
  // The batch, file by file (lines 84-128)
  // ---------------------------------------------------------------------

  /** What one file yields: its package, or None when reading or
      converting it throws. */
  type Conversion = SelectedFile -> Option<seq<Part>>

  /** The conversion `startConversion` applies to each file: read it, then
      `convertMarkdownToDocx`. */
  function Outcome(render: Renderer): Conversion {
    (f: SelectedFile) => match f.text
         case None => None
         case Some(t) => ConvertMarkdownToDocx(t, render)
  }

  /** The results list after converting `files`: one row per file, in order. */
  function Rows(files: seq<SelectedFile>, convert: Conversion): seq<ResultRow> {
    if files == [] then []
    else
      var last := files[|files| - 1];
      Rows(files[..|files| - 1], convert) + [ResultRow(last.name, convert(last).Some?)]
  }

  /** The results list has one row per file, in order, saying whether that
      file converted. */
  lemma {:induction false} RowsDescribeFiles(files: seq<SelectedFile>, convert: Conversion)
    ensures |Rows(files, convert)| == |files|
    ensures forall i :: 0 <= i < |files| ==>
      Rows(files, convert)[i] == ResultRow(files[i].name, convert(files[i]).Some?)
  {
    if files != [] {
      RowsDescribeFiles(files[..|files| - 1], convert);
    }
  }

  /** The downloads offered while converting `files`: one per converted file. */
  function Saved(files: seq<SelectedFile>, convert: Conversion): seq<Download> {
    if files == [] then []
    else
      var last := files[|files| - 1];
      var rest := Saved(files[..|files| - 1], convert);
      match convert(last)
      case Some(parts) => rest + [Download(OutputName(last.name), parts)]
      case None => rest
  }

  /** Every download is the package of a selected file that converted,
      under that file's output name. */
  lemma {:induction false} SavedComeFromConvertedFiles(files: seq<SelectedFile>, convert: Conversion)
    ensures forall d :: d in Saved(files, convert) ==>
      exists f :: f in files && convert(f).Some? && d == Download(OutputName(f.name), convert(f).value)
  {
    if files != [] {
      var init := files[..|files| - 1];
      var last := files[|files| - 1];
      SavedComeFromConvertedFiles(init, convert);
      assert forall f :: f in init ==> f in files;
      assert last in files;
    }
  }

  /** Number of files that convert. */
  function Successes(files: seq<SelectedFile>, convert: Conversion): nat {
    if files == [] then 0
    else Successes(files[..|files| - 1], convert) + (if convert(files[|files| - 1]).Some? then 1 else 0)
  }

  /** Number of files that fail. */
  function Failures(files: seq<SelectedFile>, convert: Conversion): nat {
    if files == [] then 0
    else Failures(files[..|files| - 1], convert) + (if convert(files[|files| - 1]).None? then 1 else 0)
  }

  /** Every file counts exactly once, and each success yields one download. */
  lemma {:induction false} TallyCoversEveryFile(files: seq<SelectedFile>, convert: Conversion)
    ensures Successes(files, convert) + Failures(files, convert) == |files|
    ensures |Saved(files, convert)| == Successes(files, convert)
  {
    if files != [] {
      TallyCoversEveryFile(files[..|files| - 1], convert);
    }
  }

  /** Converting one more file extends each record by that file alone. */
  lemma BatchStep(files: seq<SelectedFile>, i: nat, convert: Conversion)
    requires i < |files|
    ensures var prefix, f := files[..i], files[i];
      Rows(files[..i + 1], convert) == Rows(prefix, convert) + [ResultRow(f.name, convert(f).Some?)] &&
      Saved(files[..i + 1], convert) ==
        (if convert(f).Some? then Saved(prefix, convert) + [Download(OutputName(f.name), convert(f).value)]
         else Saved(prefix, convert)) &&
      Successes(files[..i + 1], convert) == Successes(prefix, convert) + (if convert(f).Some? then 1 else 0) &&
      Failures(files[..i + 1], convert) == Failures(prefix, convert) + (if convert(f).None? then 1 else 0)
  {
    assert files[..i + 1][..i] == files[..i] && files[..i + 1][i] == files[i];
  }

  /** The message shown when a batch ends. */
  function CompletionText(successCount: nat): string {
    "Completed! " + NatToString(successCount) + " files converted successfully"
  }

  // ---------------------------------------------------------------------
  // The controller
  // ---------------------------------------------------------------------

  class MarkdownConverter {
    var selectedFiles: seq<SelectedFile>
    /** The convert button's `disabled` flag. */
    var convertDisabled: bool
    /** The results list of the last batch. */
    var fileResults: seq<ResultRow>
    /** Every package offered for download so far. */
    var downloads: seq<Download>
    var progressText: string

    /** Between handlers the button is disabled exactly when nothing is
        selected. */
    predicate Valid()
      reads this
    {
      convertDisabled <==> |selectedFiles| == 0
    }

    /** Starts with nothing selected and the button disabled. */
    constructor ()
      ensures selectedFiles == [] && convertDisabled
      ensures fileResults == [] && downloads == [] && progressText == ""
      ensures Valid()
    {
      selectedFiles := [];
      convertDisabled := true;
      fileResults := [];
      downloads := [];
      progressText := "";
    }

    /** `updateUploadArea`: the button follows the selection. */
    method UpdateUploadArea()
      modifies this
      ensures convertDisabled <==> |selectedFiles| == 0
      ensures selectedFiles == old(selectedFiles) && fileResults == old(fileResults)
      ensures downloads == old(downloads) && progressText == old(progressText)
      ensures Valid()
    {
      convertDisabled := |selectedFiles| == 0;
    }

    /** The file picker's change handler: every chosen file is taken,
        unfiltered. */
    method ChooseFiles(files: seq<SelectedFile>)
      modifies this
      ensures selectedFiles == files
      ensures convertDisabled <==> |files| == 0
      ensures fileResults == old(fileResults) && downloads == old(downloads) && progressText == old(progressText)
      ensures Valid()
    {
      selectedFiles := files;
      UpdateUploadArea();
    }

    /** The drop handler: only ".md" names are taken, and a drop with none
        leaves the selection and the button alone. */
    method DropFiles(files: seq<SelectedFile>)
      requires Valid()
      modifies this
      ensures var kept := MarkdownOnly(files);
        (|kept| > 0 ==> selectedFiles == kept && !convertDisabled) &&
        (|kept| == 0 ==> selectedFiles == old(selectedFiles) && convertDisabled == old(convertDisabled))
      ensures fileResults == old(fileResults) && downloads == old(downloads) && progressText == old(progressText)
      ensures Valid()
    {
      var kept := MarkdownOnly(files);
      if |kept| > 0 {
        selectedFiles := kept;
        UpdateUploadArea();
      }
    }

    /** `startConversion`: nothing happens on an empty selection; otherwise
        every selected file is converted in order, converted files are
        offered for download, and each file adds one row and one count. */
    method StartConversion(render: Renderer) returns (successCount: nat, failCount: nat)
      requires Valid()
      modifies this
      ensures selectedFiles == old(selectedFiles)
      ensures old(selectedFiles) == [] ==>
        successCount == 0 && failCount == 0 && convertDisabled && fileResults == old(fileResults) &&
        downloads == old(downloads) && progressText == old(progressText)
      ensures old(selectedFiles) != [] ==>
        fileResults == Rows(selectedFiles, Outcome(render)) &&
        downloads == old(downloads) + Saved(selectedFiles, Outcome(render)) &&
        successCount == Successes(selectedFiles, Outcome(render)) &&
        failCount == Failures(selectedFiles, Outcome(render)) &&
        progressText == CompletionText(successCount) &&
        !convertDisabled
      ensures successCount + failCount == |selectedFiles|
      ensures Valid()
    {
      if |selectedFiles| == 0 {
        return 0, 0;
      }
      convertDisabled := true;
      fileResults := [];
      successCount, failCount := ConvertEach(Outcome(render));
      TallyCoversEveryFile(selectedFiles, Outcome(render));
      progressText := CompletionText(successCount);
      convertDisabled := false;
    }

    /** The loop of `startConversion`: one row per file, one download per
        converted file, one count per file. */
    method ConvertEach(convert: Conversion) returns (successCount: nat, failCount: nat)
      requires fileResults == []
      modifies this
      ensures selectedFiles == old(selectedFiles) && convertDisabled == old(convertDisabled)
      ensures fileResults == Rows(selectedFiles, convert)
      ensures downloads == old(downloads) + Saved(selectedFiles, convert)
      ensures successCount == Successes(selectedFiles, convert)
      ensures failCount == Failures(selectedFiles, convert)
    {
      successCount, failCount := 0, 0;
      var files := selectedFiles;
      var i := 0;
      while i < |files|
        invariant 0 <= i <= |files|
        invariant files == selectedFiles == old(selectedFiles) && convertDisabled == old(convertDisabled)
        invariant fileResults == Rows(files[..i], convert)
        invariant downloads == old(downloads) + Saved(files[..i], convert)
        invariant successCount == Successes(files[..i], convert)
        invariant failCount == Failures(files[..i], convert)
      {
        BatchStep(files, i, convert);
        var converted := ConvertOne(files[i], convert);
        if converted {
          successCount := successCount + 1;
        } else {
          failCount := failCount + 1;
        }
        i := i + 1;
      }
      assert files[..|files|] == files;
    }

    /** One pass of the loop: the file is converted and offered for
        download, or it fails; either way it gets a row. */
    method ConvertOne(file: SelectedFile, convert: Conversion) returns (converted: bool)
      modifies this
      ensures converted <==> convert(file).Some?
      ensures fileResults == old(fileResults) + [ResultRow(file.name, converted)]
      ensures downloads == if converted then old(downloads) + [Download(OutputName(file.name), convert(file).value)]
                           else old(downloads)
      ensures selectedFiles == old(selectedFiles) && convertDisabled == old(convertDisabled)
    {
      progressText := "Converting " + file.name + "...";
      var outcome := convert(file);
      if outcome.Some? {
        downloads := downloads + [Download(OutputName(file.name), outcome.value)];
        fileResults := fileResults + [ResultRow(file.name, true)];
        converted := true;
      } else {
        fileResults := fileResults + [ResultRow(file.name, false)];
        converted := false;
      }
    }

    /** `resetForm`: the selection is emptied and the button disabled. */
    method ResetForm()
      modifies this
      ensures selectedFiles == [] && convertDisabled
      ensures fileResults == old(fileResults) && downloads == old(downloads) && progressText == old(progressText)
      ensures Valid()
    {
      selectedFiles := [];
      convertDisabled := true;
    }
  }
}
