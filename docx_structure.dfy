/** The fixed parts of the Office Open XML package written by the browser
    converter (`DocxStructure` in docx-structure.js). Each catalog is held as
    data: the style definitions, the numbering definitions, the content-type
    manifest and the relationship manifests of ECMA-376 (Part 1,
    WordprocessingML; Part 2, Open Packaging Conventions). A renderer turns
    each catalog into the exact text of its template, four spaces of
    indentation per level and a line feed after every line but the last. */
module DocxStructure {
  import opened Text

  const XmlDeclaration := "<?xml version=\"1.0\" encoding=\"UTF-8\" standalone=\"yes\"?>"
  const WordNamespace := "http://schemas.openxmlformats.org/wordprocessingml/2006/main"
  const RelationshipsNamespace := "http://schemas.openxmlformats.org/package/2006/relationships"
  const ContentTypesNamespace := "http://schemas.openxmlformats.org/package/2006/content-types"

  // ---------------------------------------------------------------------
  // Rendering helpers
  // ---------------------------------------------------------------------

  function Indent(depth: nat): (r: string)
    ensures |r| == 4 * depth && forall i :: 0 <= i < |r| ==> r[i] == ' '
  {
    if depth == 0 then "" else "    " + Indent(depth - 1)
  }

  function Line(depth: nat, body: string): string {
    Indent(depth) + body + "\n"
  }

  function Attr(name: string, value: string): string {
    " " + name + "=\"" + value + "\""
  }

  function EmptyTag(depth: nat, tag: string, attrs: string): string {
    Line(depth, "<" + tag + attrs + "/>")
  }

  function OpenTag(depth: nat, tag: string, attrs: string): string {
    Line(depth, "<" + tag + attrs + ">")
  }

  function CloseTag(depth: nat, tag: string): string {
    Line(depth, "</" + tag + ">")
  }

  function ConcatMap<T>(xs: seq<T>, f: T -> string): string {
    if xs == [] then "" else f(xs[0]) + ConcatMap(xs[1..], f)
  }

  // ---------------------------------------------------------------------
  // Content-type manifest (lines 7-16)
  // ---------------------------------------------------------------------

  /** The paths of the package's parts, relative to the package root. */
  const ContentTypesPath := "[Content_Types].xml"
  const PackageRelsPath := "_rels/.rels"
  const DocumentRelsPath := "word/_rels/document.xml.rels"
  const StylesPath := "word/styles.xml"
  const NumberingPath := "word/numbering.xml"
  const DocumentPath := "word/document.xml"

  /** The absolute part name the manifest uses for a path. */
  function PartName(path: string): string {
    "/" + path
  }

  datatype Default = Default(extension: string, contentType: string)
  datatype Override = Override(partName: string, contentType: string)

  const MainDocumentType := "application/vnd.openxmlformats-officedocument.wordprocessingml.document.main+xml"
  const StylesType := "application/vnd.openxmlformats-officedocument.wordprocessingml.styles+xml"
  const NumberingType := "application/vnd.openxmlformats-officedocument.wordprocessingml.numbering+xml"
  const RelationshipsType := "application/vnd.openxmlformats-package.relationships+xml"
  const XmlType := "application/xml"

  /** Content types by extension: relationship parts and plain XML. */
  function Defaults(): (ds: seq<Default>)
    ensures |ds| == 2 && ds[0].extension == "rels" && ds[1].extension == "xml"
    ensures ds[0].contentType == RelationshipsType && ds[1].contentType == XmlType
  {
    [Default("rels", RelationshipsType), Default("xml", XmlType)]
  }

  /** Content types by part name: exactly the main document, the styles and
      the numbering part. */
  function Overrides(): (os: seq<Override>)
    ensures |os| == 3
    ensures os[0].partName == PartName(DocumentPath) && os[0].contentType == MainDocumentType
    ensures os[1].partName == PartName(StylesPath) && os[1].contentType == StylesType
    ensures os[2].partName == PartName(NumberingPath) && os[2].contentType == NumberingType
  {
    [ Override(PartName(DocumentPath), MainDocumentType),
      Override(PartName(StylesPath), StylesType),
      Override(PartName(NumberingPath), NumberingType) ]
  }

  function FindOverride(os: seq<Override>, partName: string): (r: Option<string>)
    ensures r.Some? <==> exists i :: 0 <= i < |os| && os[i].partName == partName
    ensures r.Some? ==> exists i :: 0 <= i < |os| && os[i].partName == partName && os[i].contentType == r.value
  {
    if os == [] then None
    else if os[0].partName == partName then Some(os[0].contentType)
    else
      var r := FindOverride(os[1..], partName);
      assert forall i :: 1 <= i < |os| ==> os[i] == os[1..][i - 1];
      r
  }

  /** The type of the first default whose extension ends the part name. */
  function FindDefault(ds: seq<Default>, partName: string): (r: Option<string>)
    ensures r.Some? <==> exists i :: 0 <= i < |ds| && EndsWith(partName, "." + ds[i].extension)
    ensures r.Some? ==>
      exists i :: 0 <= i < |ds| && EndsWith(partName, "." + ds[i].extension) &&
        r.value == ds[i].contentType && forall j :: 0 <= j < i ==> !EndsWith(partName, "." + ds[j].extension)
  {
    if ds == [] then None
    else if EndsWith(partName, "." + ds[0].extension) then Some(ds[0].contentType)
    else
      var r := FindDefault(ds[1..], partName);
      assert forall i :: 1 <= i < |ds| ==> ds[i] == ds[1..][i - 1];
      r
  }

  /** The content type a consumer resolves for a part name: an override for
      the name itself, else the default for its extension (section 10.1.2.4
      of ECMA-376 Part 2). */
  function ContentTypeOf(partName: string): Option<string> {
    match FindOverride(Overrides(), partName)
    case Some(t) => Some(t)
    case None => FindDefault(Defaults(), partName)
  }

  /** The three overridden parts resolve to their own content types. */
  lemma OverriddenPartTypes()
    ensures ContentTypeOf(PartName(DocumentPath)) == Some(MainDocumentType)
    ensures ContentTypeOf(PartName(StylesPath)) == Some(StylesType)
    ensures ContentTypeOf(PartName(NumberingPath)) == Some(NumberingType)
  {
    var os := Overrides();
    assert |PartName(StylesPath)| != |PartName(DocumentPath)|;
    assert |PartName(NumberingPath)| != |PartName(DocumentPath)|;
    assert |PartName(NumberingPath)| != |PartName(StylesPath)|;
  }

  /** A relationship part, named by its ".rels" extension and not
      overridden, resolves to the relationships content type. */
  lemma RelationshipPartType(partName: string)
    requires EndsWith(partName, ".rels")
    ensures ContentTypeOf(partName) == Some(RelationshipsType)
  {
    var os := Overrides();
    forall i | 0 <= i < |os|
      ensures os[i].partName != partName
    {
      assert os[i].partName[|os[i].partName| - 1] == 'l';
      assert partName[|partName| - 1] == 's';
    }
    assert EndsWith(partName, "." + Defaults()[0].extension);
  }

  function DefaultXml(d: Default): string {
    EmptyTag(1, "Default", Attr("Extension", d.extension) + Attr("ContentType", d.contentType))
  }

  function OverrideXml(o: Override): string {
    EmptyTag(1, "Override", Attr("PartName", o.partName) + Attr("ContentType", o.contentType))
  }

  /** `getContentTypesXml`: the manifest, rendered from its data so that the text is the
      template literal's, character for character. */
  function ContentTypesXml(): string {
    XmlDeclaration + "\n"
    + "<Types xmlns=\"" + ContentTypesNamespace + "\">\n"
    + ConcatMap(Defaults(), DefaultXml)
    + ConcatMap(Overrides(), OverrideXml)
    + "</Types>"
  }

  // ---------------------------------------------------------------------
  // Relationship manifests (lines 18-31)
  // ---------------------------------------------------------------------

  datatype Relationship = Relationship(id: string, relType: string, target: string)

  const OfficeDocumentRelationship := "http://schemas.openxmlformats.org/officeDocument/2006/relationships/officeDocument"
  const StylesRelationship := "http://schemas.openxmlformats.org/officeDocument/2006/relationships/styles"
  const NumberingRelationship := "http://schemas.openxmlformats.org/officeDocument/2006/relationships/numbering"

  /** `_rels/.rels`: rId1 is the main document. */
  function PackageRelationships(): (rels: seq<Relationship>)
    ensures |rels| == 1
    ensures rels[0].id == "rId1" && rels[0].target == DocumentPath
    ensures rels[0].relType == OfficeDocumentRelationship
  {
    [Relationship("rId1", OfficeDocumentRelationship, DocumentPath)]
  }

  /** `word/_rels/document.xml.rels`: rId1 is the styles part and rId2 the
      numbering part, targets relative to `word/`. */
  function DocumentRelationships(): (rels: seq<Relationship>)
    ensures |rels| == 2 && rels[0].id != rels[1].id
    ensures rels[0].id == "rId1" && rels[0].target == "styles.xml" && rels[0].relType == StylesRelationship
    ensures rels[1].id == "rId2" && rels[1].target == "numbering.xml" && rels[1].relType == NumberingRelationship
  {
    [ Relationship("rId1", StylesRelationship, "styles.xml"),
      Relationship("rId2", NumberingRelationship, "numbering.xml") ]
  }
  /** The numbering relationship, resolved against `word/`, names the
      numbering part. */
  lemma NumberingRelationshipTarget()
    ensures DocumentRelationships()[1].relType == NumberingRelationship
    ensures "word/" + DocumentRelationships()[1].target == NumberingPath
  {
    assert DocumentRelationships()[1].target == "numbering.xml";
  }


  function RelationshipXml(r: Relationship): string {
    EmptyTag(1, "Relationship", Attr("Id", r.id) + Attr("Type", r.relType) + Attr("Target", r.target))
  }

  function RelationshipsXml(rels: seq<Relationship>): string {
    XmlDeclaration + "\n"
    + "<Relationships xmlns=\"" + RelationshipsNamespace + "\">\n"
    + ConcatMap(rels, RelationshipXml)
    + "</Relationships>"
  }

  /** `getRelsXml`: the package relationships, rendered from its data so that the text is the
      template literal's, character for character. */
  function RelsXml(): string {
    RelationshipsXml(PackageRelationships())
  }

  /** `getDocumentRelsXml`: the document relationships, rendered from its data so that the text is the
      template literal's, character for character. */
  function DocumentRelsXml(): string {
    RelationshipsXml(DocumentRelationships())
  }

  // ---------------------------------------------------------------------
  // Style catalog (lines 33-144)
  // ---------------------------------------------------------------------

  /** Run properties in the order a style lists them. Sizes are in half
      points. */
  datatype RunProperty =
    | Bold
    | Italic
    | Size(halfPoints: nat)
    | Color(rgb: string)
    | Fonts(ascii: string, hAnsi: string)
    | Shading(pattern: string, color: string, fill: string)

  /** A paragraph style. `primary` is `w:qFormat`; spacing and indentation
      are in twentieths of a point. */
  datatype Style = Style(
    id: string,
    name: string,
    basedOn: Option<string>,
    primary: bool,
    spaceBefore: Option<nat>,
    spaceAfter: nat,
    indentLeft: Option<nat>,
    run: seq<RunProperty>)

  function HeadingStyle(level: string, before: nat, size: nat): Style {
    Style("Heading" + level, "heading " + level, Some("Normal"), false, Some(before), 120, None,
          [Bold, Size(size), Color("2F5597")])
  }

  /** The nine paragraph styles, Normal first; every other style is based
      on Normal, and no two share an id. */
  function Styles(): (styles: seq<Style>)
    ensures |styles| == 9 && styles[0].id == "Normal" && styles[7].id == "Quote" && styles[8].id == "Code"
    ensures styles[1].id == "Heading1" && styles[2].id == "Heading2" && styles[3].id == "Heading3"
    ensures styles[4].id == "Heading4" && styles[5].id == "Heading5" && styles[6].id == "Heading6"
    ensures styles[0].basedOn == None && styles[0].primary
    ensures forall i :: 1 <= i < |styles| ==> styles[i].basedOn == Some("Normal")
  {
    [ Style("Normal", "Normal", None, true, None, 120, None, [Size(22)]),
      HeadingStyle("1", 240, 32),
      HeadingStyle("2", 200, 26),
      HeadingStyle("3", 160, 24),
      HeadingStyle("4", 140, 22),
      HeadingStyle("5", 120, 22),
      HeadingStyle("6", 120, 22),
      Style("Quote", "Quote", Some("Normal"), false, Some(120), 120, Some(720), [Italic, Color("666666")]),
      Style("Code", "Code", Some("Normal"), false, Some(120), 120, Some(360),
            [Fonts("Courier New", "Courier New"), Size(18), Shading("clear", "auto", "F5F5F5")]) ]
  }

  /** No two styles share an id: the ids differ in length or in their last
      character. */
  lemma StyleIdsAreDistinct()
    ensures forall i, j :: 0 <= i < j < |Styles()| ==> Styles()[i].id != Styles()[j].id
  {
    var styles := Styles();
    var lengths := [6, 8, 8, 8, 8, 8, 8, 5, 4];
    var lasts := "l123456ee";
    forall i | 0 <= i < 9
      ensures |styles[i].id| == lengths[i] && styles[i].id[lengths[i] - 1] == lasts[i]
    {
    }
    forall i, j | 0 <= i < j < 9
      ensures styles[i].id != styles[j].id
    {
      assert lengths[i] != lengths[j] || lasts[i] != lasts[j];
    }
  }

  /** The first entry of a catalogue whose key is `k`, as a consumer
      resolves a style id or an abstract numbering id. */
  function Find<T, K(==)>(xs: seq<T>, key: T -> K, k: K): (r: Option<T>)
    ensures r.Some? ==>
      exists i :: 0 <= i < |xs| && xs[i] == r.value && key(xs[i]) == k &&
        forall j :: 0 <= j < i ==> key(xs[j]) != k
    ensures r.None? ==> forall i :: 0 <= i < |xs| ==> key(xs[i]) != k
  {
    if xs == [] then None
    else if key(xs[0]) == k then Some(xs[0])
    else
      var r := Find(xs[1..], key, k);
      assert forall i :: 1 <= i < |xs| ==> xs[i] == xs[1..][i - 1];
      r
  }

  function StyleId(s: Style): string {
    s.id
  }

  /** The font size a style sets, if any: its first `w:sz`. */
  function SizeOf(run: seq<RunProperty>): Option<nat> {
    if run == [] then None
    else if run[0].Size? then Some(run[0].halfPoints)
    else SizeOf(run[1..])
  }

  /** Font size of the heading style of a level. */
  function HeadingSize(level: nat): Option<nat>
    requires 1 <= level <= 6
  {
    SizeOf(Styles()[level].run)
  }

  /** Heading sizes are 32, 26, 24, 22, 22, 22 half points: a deeper heading
      is never larger. */
  lemma HeadingSizesNonIncreasing(a: nat, b: nat)
    requires 1 <= a <= b <= 6
    ensures HeadingSize(a).Some? && HeadingSize(b).Some?
    ensures HeadingSize(a).value >= HeadingSize(b).value
  {
    assert HeadingSize(1) == Some(32) && HeadingSize(2) == Some(26) && HeadingSize(3) == Some(24);
    assert HeadingSize(4) == Some(22) && HeadingSize(5) == Some(22) && HeadingSize(6) == Some(22);
  }

  function RunPropertyXml(p: RunProperty): string {
    match p
    case Bold => EmptyTag(3, "w:b", "")
    case Italic => EmptyTag(3, "w:i", "")
    case Size(n) => EmptyTag(3, "w:sz", Attr("w:val", NatToString(n)))
    case Color(c) => EmptyTag(3, "w:color", Attr("w:val", c))
    case Fonts(a, h) => EmptyTag(3, "w:rFonts", Attr("w:ascii", a) + Attr("w:hAnsi", h))
    case Shading(v, c, f) => EmptyTag(3, "w:shd", Attr("w:val", v) + Attr("w:color", c) + Attr("w:fill", f))
  }

  function StyleXml(s: Style): string {
    OpenTag(1, "w:style", Attr("w:type", "paragraph") + Attr("w:styleId", s.id))
    + EmptyTag(2, "w:name", Attr("w:val", s.name))
    + (match s.basedOn case Some(b) => EmptyTag(2, "w:basedOn", Attr("w:val", b)) case None => "")
    + (if s.primary then EmptyTag(2, "w:qFormat", "") else "")
    + OpenTag(2, "w:pPr", "")
    + EmptyTag(3, "w:spacing",
               (match s.spaceBefore case Some(b) => Attr("w:before", NatToString(b)) case None => "")
               + Attr("w:after", NatToString(s.spaceAfter)))
    + (match s.indentLeft case Some(l) => EmptyTag(3, "w:ind", Attr("w:left", NatToString(l))) case None => "")
    + CloseTag(2, "w:pPr")
    + OpenTag(2, "w:rPr", "") + ConcatMap(s.run, RunPropertyXml) + CloseTag(2, "w:rPr")
    + CloseTag(1, "w:style")
  }

  /** `getStylesXml`: the style catalogue, rendered from its data so that the text is the
      template literal's, character for character. */
  function StylesXml(): string {
    XmlDeclaration + "\n"
    + "<w:styles xmlns:w=\"" + WordNamespace + "\">\n"
    + ConcatMap(Styles(), StyleXml)
    + "</w:styles>"
  }

  // ---------------------------------------------------------------------
  // Numbering catalog (lines 146-181)
  // ---------------------------------------------------------------------

  datatype NumberFormat = Decimal | Bullet

  datatype LevelFont = LevelFont(ascii: string, hAnsi: string, hint: string)

  /** One list level; indentation in twentieths of a point. */
  datatype Level = Level(
    ilvl: nat,
    start: nat,
    format: NumberFormat,
    text: string,
    justification: string,
    indentLeft: nat,
    hanging: nat,
    font: Option<LevelFont>)

  datatype AbstractNum = AbstractNum(id: nat, levels: seq<Level>)

  /** A list instance: `w:num` pointing at an abstract definition. */
  datatype Num = Num(numId: nat, abstractNumId: nat)

  /** The bullet glyph as the template stores it: the UTF-8 bytes of U+2022
      read as Windows-1252, three characters. */
  const BulletText := "\U{00E2}\U{20AC}\U{00A2}"

  /** Two abstract definitions, 0 decimal and 1 bullet, each with the one
      level 0 counting from 1. */
  function AbstractNums(): (defs: seq<AbstractNum>)
    ensures |defs| == 2 && defs[0].id == 0 && defs[1].id == 1
    ensures forall i :: 0 <= i < |defs| ==>
      |defs[i].levels| == 1 && defs[i].levels[0].ilvl == 0 && defs[i].levels[0].start == 1
    ensures defs[0].levels[0].format == Decimal && defs[1].levels[0].format == Bullet
  {
    [ AbstractNum(0, [Level(0, 1, Decimal, "%1.", "left", 720, 360, None)]),
      AbstractNum(1, [Level(0, 1, Bullet, BulletText, "left", 720, 360,
                            Some(LevelFont("Symbol", "Symbol", "default")))]) ]
  }

  function Nums(): (nums: seq<Num>)
    ensures nums == [Num(1, 0), Num(2, 1)]
  {
    [Num(1, 0), Num(2, 1)]
  }

  function FindNum(nums: seq<Num>, numId: nat): (r: Option<nat>)
    ensures r.Some? ==> exists i :: 0 <= i < |nums| && nums[i] == Num(numId, r.value)
    ensures r.None? ==> forall i :: 0 <= i < |nums| ==> nums[i].numId != numId
  {
    if nums == [] then None
    else if nums[0].numId == numId then Some(nums[0].abstractNumId)
    else
      var r := FindNum(nums[1..], numId);
      assert forall i :: 1 <= i < |nums| ==> nums[i] == nums[1..][i - 1];
      r
  }

  function AbstractNumId(a: AbstractNum): nat {
    a.id
  }

  /** The format of level 0 of a list instance, resolved numId to
      abstractNumId to level: numId 1 is a decimal list, numId 2 a bullet
      list, and no other numId exists. */
  function ListFormat(numId: nat): (r: Option<NumberFormat>)
    ensures numId == 1 ==> r == Some(Decimal)
    ensures numId == 2 ==> r == Some(Bullet)
    ensures numId != 1 && numId != 2 ==> r == None
  {
    match FindNum(Nums(), numId)
    case None => None
    case Some(a) =>
      match Find(AbstractNums(), AbstractNumId, a)
      case None => None
      case Some(def) => if def.levels == [] then None else Some(def.levels[0].format)
  }

  function FormatName(f: NumberFormat): string {
    match f
    case Decimal => "decimal"
    case Bullet => "bullet"
  }

  function LevelXml(l: Level): string {
    OpenTag(2, "w:lvl", Attr("w:ilvl", NatToString(l.ilvl)))
    + EmptyTag(3, "w:start", Attr("w:val", NatToString(l.start)))
    + EmptyTag(3, "w:numFmt", Attr("w:val", FormatName(l.format)))
    + EmptyTag(3, "w:lvlText", Attr("w:val", l.text))
    + EmptyTag(3, "w:lvlJc", Attr("w:val", l.justification))
    + OpenTag(3, "w:pPr", "")
    + EmptyTag(4, "w:ind", Attr("w:left", NatToString(l.indentLeft)) + Attr("w:hanging", NatToString(l.hanging)))
    + CloseTag(3, "w:pPr")
    + (match l.font
       case Some(f) =>
         OpenTag(3, "w:rPr", "")
         + EmptyTag(4, "w:rFonts", Attr("w:ascii", f.ascii) + Attr("w:hAnsi", f.hAnsi) + Attr("w:hint", f.hint))
         + CloseTag(3, "w:rPr")
       case None => "")
    + CloseTag(2, "w:lvl")
  }

  function AbstractNumXml(a: AbstractNum): string {
    OpenTag(1, "w:abstractNum", Attr("w:abstractNumId", NatToString(a.id)))
    + ConcatMap(a.levels, LevelXml)
    + CloseTag(1, "w:abstractNum")
  }

  function NumXml(n: Num): string {
    OpenTag(1, "w:num", Attr("w:numId", NatToString(n.numId)))
    + EmptyTag(2, "w:abstractNumId", Attr("w:val", NatToString(n.abstractNumId)))
    + CloseTag(1, "w:num")
  }

  /** `getNumberingXml`: the numbering catalogue, rendered from its data so that the text is the
      template literal's, character for character. */
  function NumberingXml(): string {
    XmlDeclaration + "\n"
    + "<w:numbering xmlns:w=\"" + WordNamespace + "\">\n"
    + ConcatMap(AbstractNums(), AbstractNumXml)
    + ConcatMap(Nums(), NumXml)
    + "</w:numbering>"
  }

  // ---------------------------------------------------------------------
  // Main document part (lines 183-190)
  // ---------------------------------------------------------------------

  const DocumentHead := XmlDeclaration + "\n<w:document xmlns:w=\"" + WordNamespace + "\">\n    <w:body>\n        "
  const DocumentTail := "\n    </w:body>\n</w:document>"

  /** `getDocumentXml`: the body content is inserted as it is, unescaped. */
  function DocumentXml(content: string): string {
    DocumentHead + content + DocumentTail
  }

  /** The body content between the fixed head and tail, if the text has them. */
  function BodyOf(xml: string): Option<string> {
    if |DocumentHead| + |DocumentTail| <= |xml| && DocumentHead <= xml && EndsWith(xml, DocumentTail)
    then Some(xml[|DocumentHead|..|xml| - |DocumentTail|])
    else None
  }

  /** The content is recovered verbatim from the document part. */
  lemma DocumentBodyRoundTrip(content: string)
    ensures BodyOf(DocumentXml(content)) == Some(content)
  {
    var xml := DocumentXml(content);
    assert xml[..|DocumentHead|] == DocumentHead;
    assert xml[|xml| - |DocumentTail|..] == DocumentTail;
    assert xml[|DocumentHead|..|xml| - |DocumentTail|] == content;
  }

  /** Different contents give different document parts. */
  lemma DocumentXmlInjective(a: string, b: string)
    requires DocumentXml(a) == DocumentXml(b)
    ensures a == b
  {
    DocumentBodyRoundTrip(a);
    DocumentBodyRoundTrip(b);
  }
}
