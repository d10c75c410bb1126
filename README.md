# markdown-to-docx, modelled in Dafny

The repository converts Markdown files to Word (`.docx`) documents in
two ways. The Dafny project models both, in five modules:

- **Browser converter** (`netlify-version/converter.js`, module
  `BrowserConverter`). A `MarkdownConverter` object keeps the selected
  files and converts each one in turn:
  - `marked` renders the Markdown as HTML.
  - A chain of regular-expression passes rewrites that HTML into WordprocessingML.
  - The result is zipped with four fixed template parts.
  - Each package is offered for download under the file's name with `.md`
    replaced by `.docx`.
  - A results list and a success counter are kept.
- **HTML to WordprocessingML** (`convertHtmlToWordML`, module `HtmlToWordML`).
  Each `String.replace` with a global regular expression is a function
  over `seq<char>`:
  - The lazy `(.*?)` group stops at the first closing tag, with no line
    terminator before it.
  - `[^>]*` stops at the first `>`.
  - The `i` flag folds ASCII case.
  - The tag-stripping pass, the four entity passes and the final
    paragraph wrap are modelled in the source's order.
- **DOCX templates** (`netlify-version/docx-structure.js`, module
  `DocxStructure`). The content-type manifest, both relationship parts,
  the style catalogue, the numbering catalogue and the document wrapper are
  modelled as data (defaults, overrides, relationships, styles, abstract
  numberings, numbering instances), and each is rendered to the XML text
  the source returns.
- **Flask pipeline** (`markdown_converter_web.py`, module `WebConverter`).
  - `convert_files` filters and reads the uploads.
  - `process_conversion` then drives the global `conversion_progress`
    dictionary through these stages:
    - the dependency check;
    - saving each upload under a safe name;
    - converting each saved file;
    - zipping the outputs;
    - the completion message.
  - The dictionary is a class `ConversionProgress` whose methods update
    its fields.
  - Each stage is a method proved against a stage function (`Processed`,
    `FilesProcessed`, `SavedProcessed`, `Packaged`).
- **Text** (module `Text`) holds the string operations both programs use:
  - first-occurrence replacement (JavaScript `String.replace` with a string pattern);
  - global replacement (`str.replace` and global regular expressions with a literal pattern);
  - suffix tests;
  - decimal rendering of counts.

Outside effects the model cannot see become parameters:
- `marked.parse` is a `Renderer` function.
- Reading and converting a file in the browser is a `Conversion` that may fail.
- For each file in the Flask pipeline, the outcomes of saving, the existence
  checks, pandoc's conversion and writing the archive are passed in as
  values.

## Behaviour worth knowing

- The browser converter hands Markdown to `marked`, and the Flask pipeline
  hands it to pandoc. The browser code's own rewriting step is the
  regular-expression pass of `convertHtmlToWordML` over `marked`'s HTML.
- The tag-stripping pass `<[^>]+>` runs after the rewrite, so it also
  erases every `<w:…>` tag the rewrite inserted. HTML without an `&`
  therefore always becomes one plain paragraph holding its text
  (`AmpersandFreeHtmlIsOneParagraph`). No tag is left after stripping
  (`StripTags`), so markup reaches the result only through the entity
  passes that follow: an escaped tag whose text holds neither `<` nor `&`
  passes the strip untouched and decodes to a live tag
  (`EscapedTagSurvivesStripping`).
- Text is not escaped. Entities are decoded after stripping, in the order
  `&amp;`, `&lt;`, `&gt;`, `&quot;`, so `&amp;lt;` decodes twice, to `<`
  (`DoubleDecoding`).
- The package has five parts. `word/numbering.xml` is announced in the
  content-type manifest and in the document relationships but never added
  (`NumberingPartIsAnnouncedButMissing`).
- The output name replaces the first `.md` in the name, not the extension
  (`OutputNameReplacesFirstOnly`: `a.md.md` becomes `a.docx.md`). The Flask
  pipeline uses `Path.stem`, which drops the last suffix.
- The Flask status stays `"starting"` while the batch runs. Only `"error"`
  or `"completed"` replace it.

## Model

| member | source | states |
|---|---|---|
| Text.EndsWith | netlify-version/converter.js:35 | `String.prototype.endsWith`: the name's last characters are the suffix (no contract of its own; `KeepUploadIsSuffixTest` and the filters use it) |
| Text.ReplaceAll | netlify-version/converter.js:187 | a global replacement of a literal pattern, scanning left to right and going on after each replacement (no contract of its own; its properties are the `ReplaceAll…` lemmas) |
| Text.ReplaceFirst | netlify-version/converter.js:99 | `String.replace` with a string pattern (no contract of its own; `ReplaceFirstAt` and `ReplaceFirstAbsent` state what it does) |
| Text.ReplaceFirstAt | netlify-version/converter.js:99 | replacing the first occurrence splices `rep` in at the earliest position where the pattern occurs and keeps everything else |
| Text.ReplaceFirstAbsent | netlify-version/converter.js:99 | a name without the pattern is returned unchanged |
| Text.ReplaceAllNoOccurrence | netlify-version/converter.js:187 | a global replace of a pattern that does not occur leaves the text unchanged |
| Text.ReplaceAllFront | netlify-version/converter.js:187 | a global replace turns a leading occurrence into the replacement and goes on after it |
| Text.ReplaceAllCharwise | markdown_converter_web.py:129 | replacing one character by another keeps the length and changes exactly the positions holding that character |
| Text.NatToString | netlify-version/converter.js:133 | a count renders as a non-empty string of decimal digits with no leading zero except for 0 |
| Text.DecimalRoundTrip | markdown_converter_web.py:233 | reading the rendered digits back gives the count again |
| Text.NatToStringInjective | markdown_converter_web.py:233-237 | different counts render differently |
| HtmlToWordML.ReplacePairs | netlify-version/converter.js:175-182 | one `<tag[^>]*>(.*?)</tag>` pass with the `gi` flags, each match replaced by the template around the group (no contract of its own; `MatchPairAt`, `ReplacePairsWithoutTags` and `ReplacePairsAvoids` state its properties) |
| HtmlToWordML.ReplaceBreaks | netlify-version/converter.js:183 | the `<br\s*\/?>` pass (no contract of its own; `MatchBreakAt` and `ReplaceBreaksAvoids` state its properties) |
| HtmlToWordML.RewriteTags | netlify-version/converter.js:175-183 | the nine rewrite passes in the source's order (no contract of its own; `RewriteTagsAvoidsAmpersand` states its property) |
| HtmlToWordML.DecodeEntities | netlify-version/converter.js:187 | the four entity passes in the order `&amp;`, `&lt;`, `&gt;`, `&quot;` (no contract of its own; `DecodeWithoutAmpersand` and `DoubleDecoding` state its properties) |
| HtmlToWordML.WrapInParagraph | netlify-version/converter.js:189-192 | the paragraph-and-run template around the text (no contract of its own; `ConvertHtmlToWordML` states when it applies) |
| HtmlToWordML.FindGt | netlify-version/converter.js:175 | `[^>]*>` ends at the first `>` after the tag name, or there is none |
| HtmlToWordML.LazyGroupEnd | netlify-version/converter.js:175-182 | the lazy group ends at the first closing tag with no line terminator before it; when none is found, every later closing tag has a line terminator before it |
| HtmlToWordML.MatchPairAt | netlify-version/converter.js:175-182 | finds a match of `<tag[^>]*>(.*?)</tag>` (ASCII case folded) at the front exactly when one exists |
| HtmlToWordML.ReplacePairsWithoutTags | netlify-version/converter.js:175-182 | a pair pass leaves text without `<` unchanged |
| HtmlToWordML.ReplacePairsAvoids | netlify-version/converter.js:175-182 | a pair pass introduces no character that is absent from its input and from its templates |
| HtmlToWordML.SpaceRunEnd | netlify-version/converter.js:183 | `\s*` takes the longest run of regular-expression white space |
| HtmlToWordML.MatchBreakAt | netlify-version/converter.js:183 | finds a `<br\s*\/?>` match at the front exactly when one exists |
| HtmlToWordML.ReplaceBreaksAvoids | netlify-version/converter.js:183 | the break pass introduces no character outside its input and `<w:br/>` |
| HtmlToWordML.HeadingOpenAvoidsAmpersand | netlify-version/converter.js:175-177 | the heading templates contain no `&` |
| HtmlToWordML.RunTemplatesAvoidAmpersand | netlify-version/converter.js:178 | the paragraph and run templates contain no `&` |
| HtmlToWordML.FormatTemplatesAvoidAmpersand | netlify-version/converter.js:179-183 | the bold, italic and break templates contain no `&` |
| HtmlToWordML.RewriteTagsAvoidsAmpersand | netlify-version/converter.js:175-183 | the nine rewrite passes never create an `&` |
| HtmlToWordML.MatchTagAt | netlify-version/converter.js:186 | `<[^>]+>` matches at the front exactly when a `<` is followed by at least one non-`>` and then a `>` |
| HtmlToWordML.PrependKeepsNoTagLeft | netlify-version/converter.js:186 | a character kept in front of stripped text creates no new tag |
| HtmlToWordML.StripTags | netlify-version/converter.js:186 | no `<…>` tag is left, no character is added, a first character other than `<` is kept, and text without `<` is unchanged |
| HtmlToWordML.StripTagsKeepsText | netlify-version/converter.js:186 | text before the first `<` is kept as it is and stripping goes on after it |
| HtmlToWordML.StripTagsDropsTag | netlify-version/converter.js:186 | a tag `<name>` whose name is non-empty and holds no `>` is removed whole |
| HtmlToWordML.StripTagsKeepsStrayLessThan | netlify-version/converter.js:186 | a `<` that opens no tag is kept and stripping goes on after it; with the two lemmas above this fixes the pass on every input |
| HtmlToWordML.NoParagraphMarker | netlify-version/converter.js:186-190 | text without tags never contains `<w:p>`, so it is always wrapped |
| HtmlToWordML.DecodeWithoutAmpersand | netlify-version/converter.js:187 | decoding text without `&` changes nothing |
| HtmlToWordML.DoubleDecoding | netlify-version/converter.js:187 | `&amp;lt;` decodes to `<`, because `&amp;` is decoded first |
| HtmlToWordML.AmpersandPassKeepsEscapedTag | netlify-version/converter.js:187 | the `&amp;` pass leaves `&lt;x&gt;` alone when x has no `&` |
| HtmlToWordML.LessThanPassOpensEscapedTag | netlify-version/converter.js:187 | the `&lt;` pass turns `&lt;x&gt;` into `<x&gt;` |
| HtmlToWordML.GreaterThanPassClosesEscapedTag | netlify-version/converter.js:187 | the `&gt;` pass turns `<x&gt;` into `<x>` |
| HtmlToWordML.EscapedTagIsDecoded | netlify-version/converter.js:187 | an escaped tag `&lt;x&gt;` whose text has no `&` decodes to the live tag `<x>` |
| HtmlToWordML.EscapedTagSurvivesStripping | netlify-version/converter.js:186-187 | an escaped tag whose text holds neither `<` nor `&` is left unchanged by the strip pass and then decodes to the live tag |
| HtmlToWordML.ConvertHtmlToWordML | netlify-version/converter.js:170-195 | the result always contains `<w:p>`: the decoded text when that already holds one, otherwise that text wrapped in one paragraph and run |
| HtmlToWordML.AmpersandFreeHtmlIsOneParagraph | netlify-version/converter.js:175-192 | HTML without `&` becomes exactly one wrapped paragraph of its stripped text, which itself holds no paragraph |
| DocxStructure.Indent | netlify-version/docx-structure.js:10 | the templates indent by four spaces per level |
| DocxStructure.ContentTypesXml | netlify-version/docx-structure.js:7-16 | the manifest text, built from the `Defaults` and `Overrides` data with `ConcatMap` so that it reproduces the template line by line (no contract of its own; the data carry the contracts) |
| DocxStructure.RelsXml | netlify-version/docx-structure.js:18-23 | the package relationships text, built from `PackageRelationships` with `ConcatMap` (no contract of its own) |
| DocxStructure.DocumentRelsXml | netlify-version/docx-structure.js:25-31 | the document relationships text, built from `DocumentRelationships` with `ConcatMap` (no contract of its own) |
| DocxStructure.StylesXml | netlify-version/docx-structure.js:33-144 | the style catalogue text, built from `Styles` with `ConcatMap` (no contract of its own) |
| DocxStructure.NumberingXml | netlify-version/docx-structure.js:146-181 | the numbering catalogue text, built from `AbstractNums` and `Nums` with `ConcatMap` (no contract of its own) |
| DocxStructure.DocumentXml | netlify-version/docx-structure.js:183-190 | the body wrapped in `<w:document><w:body>…</w:body></w:document>` (no contract of its own; `DocumentBodyRoundTrip` and `DocumentXmlInjective` state its properties) |
| DocxStructure.Defaults | netlify-version/docx-structure.js:10-11 | exactly two defaults: `rels` maps to the relationships type and `xml` to `application/xml` |
| DocxStructure.Overrides | netlify-version/docx-structure.js:12-14 | the manifest overrides the types of the document, the styles and the numbering parts |
| DocxStructure.FindOverride | netlify-version/docx-structure.js:12-14 | an override applies exactly when its part name is listed, and gives that entry's type |
| DocxStructure.FindDefault | netlify-version/docx-structure.js:10-11 | a default applies exactly when the part name ends in its extension, and the type given is that of the first such default |
| DocxStructure.OverriddenPartTypes | netlify-version/docx-structure.js:12-14 | `/word/document.xml`, `/word/styles.xml` and `/word/numbering.xml` get their WordprocessingML types |
| DocxStructure.RelationshipPartType | netlify-version/docx-structure.js:10 | every `.rels` part gets the relationships type |
| DocxStructure.PackageRelationships | netlify-version/docx-structure.js:21 | the package has one relationship, `rId1`, of the office-document type, pointing to `word/document.xml` |
| DocxStructure.DocumentRelationships | netlify-version/docx-structure.js:28-29 | the document relates to `styles.xml` (`rId1`) and `numbering.xml` (`rId2`), with distinct ids |
| DocxStructure.NumberingRelationshipTarget | netlify-version/docx-structure.js:29 | the numbering relationship resolves to the part `word/numbering.xml` |
| DocxStructure.Styles | netlify-version/docx-structure.js:36-142 | nine styles: Normal (primary, based on nothing), Heading1-6, Quote and Code, each based on Normal |
| DocxStructure.StyleIdsAreDistinct | netlify-version/docx-structure.js:36-142 | no two styles share an id |
| DocxStructure.Find | netlify-version/docx-structure.js:36-179 | a catalogue lookup by key (a style id or an abstract numbering id) gives the first entry with that key, or reports that no entry has it |
| DocxStructure.HeadingSizesNonIncreasing | netlify-version/docx-structure.js:46-117 | every heading has a size, and a deeper heading is never larger |
| DocxStructure.AbstractNums | netlify-version/docx-structure.js:149-173 | two abstract numberings, 0 decimal and 1 bullet, each with a single level 0 starting at 1 |
| DocxStructure.Nums | netlify-version/docx-structure.js:174-179 | numbering 1 uses abstract 0 and numbering 2 uses abstract 1 |
| DocxStructure.FindNum | netlify-version/docx-structure.js:174-179 | a numbering id lookup finds its abstract numbering, or reports that the id is missing |
| DocxStructure.ListFormat | netlify-version/docx-structure.js:149-179 | list id 1 is decimal, list id 2 is bullet and every other id is undefined |
| DocxStructure.DocumentBodyRoundTrip | netlify-version/docx-structure.js:183-190 | the body placed in the document wrapper can be read back unchanged |
| DocxStructure.DocumentXmlInjective | netlify-version/docx-structure.js:183-190 | different bodies give different documents |
| BrowserConverter.OutputName | netlify-version/converter.js:99 | `file.name.replace('.md', '.docx')` (no contract of its own; the three `OutputName…` lemmas state what it does) |
| BrowserConverter.OutputNameReplacesFirstOnly | netlify-version/converter.js:99 | only the first `.md` is replaced: `a.md.md` becomes `a.docx.md` |
| BrowserConverter.OutputNameWithoutMarkdown | netlify-version/converter.js:99 | a name without `.md` keeps its name |
| BrowserConverter.OutputNameOfMarkdownFile | netlify-version/converter.js:99 | `base.md` becomes `base.docx` when base has no `.md` |
| BrowserConverter.MarkdownOnly | netlify-version/converter.js:35 | the drop filter keeps only `.md` files, keeps all of them and adds none |
| BrowserConverter.MarkdownOnlyAppend | netlify-version/converter.js:35 | filtering a concatenation filters each part, so order and multiplicity are kept |
| BrowserConverter.MarkdownOnlySingle | netlify-version/converter.js:35 | one file is kept exactly when its name ends in `.md` |
| BrowserConverter.PartPaths | netlify-version/converter.js:157-161 | the paths are `[Content_Types].xml`, `_rels/.rels`, `word/_rels/document.xml.rels`, `word/styles.xml` and `word/document.xml`, in that order: five distinct paths, none of them the numbering part |
| BrowserConverter.PackageParts | netlify-version/converter.js:157-161 | the package holds the five paths in order, the first four with the manifest, package relationships, document relationships and styles templates, the last with the document built from the HTML |
| BrowserConverter.DocumentPartHoldsRewrittenHtml | netlify-version/converter.js:151-161 | the document part's body is exactly the rewritten HTML, which holds a paragraph |
| BrowserConverter.DocumentPartText | netlify-version/converter.js:151-161 | the body read back from the document part's text is the rewritten HTML |
| BrowserConverter.PackageHasFiveDistinctParts | netlify-version/converter.js:157-161 | whatever the HTML, the package has five distinct parts and no numbering part |
| BrowserConverter.PackagedPartsHaveContentTypes | netlify-version/converter.js:158-161 | the relationships, styles and document parts each get their content type from the manifest |
| BrowserConverter.NamedPartTypes | netlify-version/docx-structure.js:10-14 | the manifest types `_rels/.rels` and the document relationships as relationships, `word/styles.xml` as styles and `word/document.xml` as the main document |
| BrowserConverter.NumberingPartIsAnnouncedButMissing | netlify-version/converter.js:157-161 | the manifest types and the document relates `numbering.xml`, yet no packaged part has that path |
| BrowserConverter.RewrittenHeadingStylesAreDeclared | netlify-version/converter.js:175-177 | the Heading1-3 styles the rewrite names exist and are based on Normal |
| BrowserConverter.ConvertMarkdownToDocx | netlify-version/converter.js:146-168 | a package exists exactly when rendering succeeds; it is then the five parts in order, the four fixed templates and the document holding the rewritten HTML |
| BrowserConverter.RowsDescribeFiles | netlify-version/converter.js:102-121 | one result row per selected file, in order, saying whether it converted |
| BrowserConverter.SavedComeFromConvertedFiles | netlify-version/converter.js:96-100 | every download is a converted file's package under its output name |
| BrowserConverter.TallyCoversEveryFile | netlify-version/converter.js:81-124 | every file counts once, as a success or a failure, and each success gives one download |
| BrowserConverter.MarkdownConverter.constructor | netlify-version/converter.js:7-10 | starts with no files selected, nothing shown and the convert button disabled |
| BrowserConverter.MarkdownConverter.UpdateUploadArea | netlify-version/converter.js:48-67 | the button is enabled exactly when files are selected, and nothing else changes |
| BrowserConverter.MarkdownConverter.ChooseFiles | netlify-version/converter.js:14-17 | the chosen files become the selection, unfiltered, and the button follows it |
| BrowserConverter.MarkdownConverter.DropFiles | netlify-version/converter.js:31-40 | a drop with `.md` files replaces the selection with those files; a drop without any changes nothing |
| BrowserConverter.MarkdownConverter.StartConversion | netlify-version/converter.js:69-135 | an empty selection does nothing; otherwise it gives one row per file, one download per converted file and counts that sum to the number of files, shows the completion text and re-enables the button |
| BrowserConverter.MarkdownConverter.ConvertEach | netlify-version/converter.js:84-128 | the loop leaves exactly the rows, downloads and counts of the batch |
| BrowserConverter.MarkdownConverter.ConvertOne | netlify-version/converter.js:85-124 | one file adds one row and, when it converted, one download under its output name |
| BrowserConverter.MarkdownConverter.ResetForm | netlify-version/converter.js:201-215 | clears the selection and disables the button, keeping the results |
| WebConverter.LeadingSpaces | markdown_converter_web.py:59 | counts the white space at the start of a name |
| WebConverter.TrailingSpaces | markdown_converter_web.py:59 | counts the white space at the end of a name |
| WebConverter.PyStrip | markdown_converter_web.py:59 | the stripped name is the input minus its leading and trailing Python white space: a slice whose outside is all white space, empty exactly when the name is all white space, and otherwise starting and ending with a non-space |
| WebConverter.StripWindow | markdown_converter_web.py:59 | the window between the leading and the trailing white-space runs starts and ends with a non-space, and is empty exactly when the name is all white space |
| WebConverter.KeepUploadIsSuffixTest | markdown_converter_web.py:59 | an upload is kept exactly when its name ends in `.md` |
| WebConverter.KeptUploads | markdown_converter_web.py:58-59 | the kept uploads are uploads that pass the filter |
| WebConverter.KeptUploadsAppend | markdown_converter_web.py:58-59 | filtering a concatenation filters each part, so every passing upload is kept, in order |
| WebConverter.KeptUploadsSnoc | markdown_converter_web.py:58-59 | one more upload is appended exactly when it passes the filter |
| WebConverter.KeptUploadsSingle | markdown_converter_web.py:58-59 | one upload is kept exactly when it passes the filter |
| WebConverter.Gather | markdown_converter_web.py:57-68 | the upload loop of `convert_files`: the kept uploads read in order, stopping at the first read error (no contract of its own; `GatherAcceptsKeptUploads` and `ReadFailurePersists` state its properties) |
| WebConverter.GatherAcceptsKeptUploads | markdown_converter_web.py:57-66 | when every read succeeds, the file data are the kept uploads in order, with the bytes each read returned |
| WebConverter.ReadFailurePersists | markdown_converter_web.py:67-68 | the first read error ends the request, whatever uploads follow |
| WebConverter.Respond | markdown_converter_web.py:57-78 | the reply of `/convert`: a read error, no Markdown files, or a started batch (no contract of its own; `RespondStartsOnlyMarkdown` states its three outcomes) |
| WebConverter.RespondStartsOnlyMarkdown | markdown_converter_web.py:57-78 | a batch starts exactly when every kept upload reads and at least one is kept, and then holds only `.md` files; otherwise the reply is "Error reading file …" for the first read error, or "No valid markdown files selected" when nothing is kept |
| WebConverter.SafeFilename | markdown_converter_web.py:129 | each `/` and `\` becomes `_` (no contract of its own; `SafeFilenameReplacesSeparators` states its property) |
| WebConverter.SafeFilenameReplacesSeparators | markdown_converter_web.py:129 | the safe name has the same length, turns each `/` and `\` into `_`, keeps every other character, and holds no separator |
| WebConverter.LastDot | markdown_converter_web.py:172 | finds the last `.` of a name, or reports that there is none |
| WebConverter.Stem | markdown_converter_web.py:172 | `Path.stem`: the name without its last suffix, which starts at the last `.` when that dot is neither the first nor the last character (no contract of its own; `StemOfMarkdownName` states its property) |
| WebConverter.OutputFilename | markdown_converter_web.py:172 | the stem followed by `.docx` (no contract of its own) |
| WebConverter.StemOfMarkdownName | markdown_converter_web.py:172 | the stem of `base.md` is `base` for a non-empty base, and the stem of the dotfile `.md` is `.md` |
| WebConverter.RecordFor | markdown_converter_web.py:175-196 | a file succeeds exactly when it exists, converts and its output is written, and only a success names an output |
| WebConverter.Records | markdown_converter_web.py:166-197 | one record per saved file, in order |
| WebConverter.TallyCoversEveryRecord | markdown_converter_web.py:162-197 | successes and failures add up to the number of records |
| WebConverter.ArchivedAtMostSuccessful | markdown_converter_web.py:207-215 | the archive never holds more files than succeeded |
| WebConverter.CompletionMessageReportsFailures | markdown_converter_web.py:233-237 | the message mentions failures exactly when some file failed, with their count |
| WebConverter.SafeNames | markdown_converter_web.py:124-139 | one safe name per upload, in order |
| WebConverter.Processed | markdown_converter_web.py:99-237 | the progress `process_conversion` leaves, stage by stage from the dependency check on (no contract of its own; `CompletedOnlyAfterArchiving` and `EmptyUploadAbortsBatch` state its properties) |
| WebConverter.FilesProcessed | markdown_converter_web.py:122-237 | the progress from the saving stage on (no contract of its own) |
| WebConverter.SavedProcessed | markdown_converter_web.py:150-237 | the progress from the conversion stage on (no contract of its own) |
| WebConverter.Packaged | markdown_converter_web.py:203-237 | the progress of the zip stage and the completion message (no contract of its own) |
| WebConverter.CompletedOnlyAfterArchiving | markdown_converter_web.py:99-237 | the batch completes exactly when the dependencies are there, every upload saves, the zip is written and holds a file; it then reports 100 %, the zip path, the records and the counts; otherwise it ends in error with the output path untouched |
| WebConverter.EmptyUploadAbortsBatch | markdown_converter_web.py:138-143 | an empty upload stops the batch in error before any record is written |
| WebConverter.SaveErrorAt | markdown_converter_web.py:124-148 | any failing save makes the save stage fail |
| WebConverter.SaveErrorPersists | markdown_converter_web.py:124-148 | the first failing save decides the message, whatever follows |
| WebConverter.RecordsCoverBatch | markdown_converter_web.py:162-215 | every saved file is recorded and counted once, and only successes are archived |
| WebConverter.CountArchived | markdown_converter_web.py:207-215 | the loop counts exactly the successful outputs still present |
| WebConverter.ConversionProgress.constructor | markdown_converter_web.py:33 | the progress starts idle, at 0, with no message, files or output |
| WebConverter.ConversionProgress.HandleConvert | markdown_converter_web.py:45-78 | resets the progress to "starting" and answers as `Respond` |
| WebConverter.ConversionProgress.ProcessConversion | markdown_converter_web.py:94-237 | leaves the progress as `Processed` describes |
| WebConverter.ConversionProgress.ProcessFiles | markdown_converter_web.py:122-237 | from the saving stage on, leaves the progress as `FilesProcessed` describes |
| WebConverter.ConversionProgress.SaveAll | markdown_converter_web.py:122-148 | either every upload is saved under its safe name, or the first failure's message is set with status "error" |
| WebConverter.ConversionProgress.ConvertSaved | markdown_converter_web.py:150-237 | from the conversion stage on, leaves the progress as `SavedProcessed` describes |
| WebConverter.ConversionProgress.ConvertFile | markdown_converter_web.py:166-196 | announces the file and returns its record |
| WebConverter.ConversionProgress.ConvertAll | markdown_converter_web.py:162-197 | returns the records of the batch and their success and failure counts |
| WebConverter.ConversionProgress.Package | markdown_converter_web.py:199-237 | the zip stage ends in error on a zip failure or an empty archive, and otherwise completes |

## Left out

- The page itself: DOM updates, event wiring, `FileReader`, `await`,
  `setTimeout`, the progress bar width and `saveAs`. Downloads are a
  sequence the model appends to.
- `marked.parse` is not part of this model. It is the `Renderer`
  parameter, which may fail.
- JSZip's `generateAsync` is not part of this model. A package is its
  list of parts, and `ContentText` gives each part's XML text.
- `BrowserConverter.MarkdownConverter.constructor`: the initial state of
  the convert button comes from page markup outside the code. The model
  starts it disabled.
- `BrowserConverter.MarkdownConverter.DropFiles` and `StartConversion`
  require `Valid()` (the button is disabled exactly when nothing is
  selected). The page keeps this invariant whenever no batch is running;
  the methods do not check it.
- `BrowserConverter.MarkdownConverter.StartConversion` and
  `BrowserConverter.MarkdownConverter.ConvertEach`: the model's batch runs
  to the end on the selection it started with. On the page the loop awaits
  between files (converter.js:93, 96, 127), and during those awaits a drop
  or a file choice can replace `selectedFiles`, which the loop re-reads,
  and re-enable the button, so that a second batch starts and clears the
  results.
- `BrowserConverter.MarkdownConverter.StartConversion` does not state the
  per-file "Converting …" texts. Only the final text remains.
- `DocxStructure.NumberingXml` renders the numbering catalogue, but the
  browser converter never packages it, so no operation uses it.
- Flask itself is not part of this model: routes, JSON replies, the
  background thread, temporary directories, `shutil` cleanup, the
  `/progress` and `/download` routes and the pages.
- The outer `except` of `process_conversion` (lines 239-241) is not
  modelled. It only catches exceptions from code outside this model.
- Per-file outcomes are parameters: an upload's `read` (bytes or an error
  text), whether its save succeeded, the exists and size checks, pandoc's
  result and whether each output is still present when zipping. An
  exception during one file's conversion is a failed conversion.
- The in-loop progress percentages (`20 + i / n * 70`) are not modelled,
  because they are floating point.
- `WebConverter.ConversionProgress.ProcessConversion` does not model the
  file system. Two uploads with the same safe name, or outputs with the
  same stem, overwrite each other on disk; the model treats them as
  separate files.
- A missing filename (`None`) is treated as the empty name, which the
  filter rejects in the same way.
- Concurrency is not modelled. The Flask thread and requests polling the
  progress dictionary could race.
- The desktop and scripting front ends (`markdown_to_docx_gui.py`,
  `convert_drag_drop.py`, `EASY_SETUP.py`) are not part of this model.
  Neither is `markdown_to_docx_converter.py`, a wrapper around pandoc that
  the pipeline reaches only through the conversion outcome.
