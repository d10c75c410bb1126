/** `convertHtmlToWordML` of the browser converter: nine global regular
    expression replacements that rewrite HTML tag pairs into WordprocessingML,
    a pass that deletes every remaining `<...>` tag, entity decoding, and a
    fallback wrap into one paragraph.

    Each global replacement is modelled as JavaScript runs it: try the pattern
    at the current position; on a match emit the replacement and resume after
    the match, otherwise copy one character and try at the next position. No
    pattern here can match the empty string or contains an anchor, so matching
    at position i of a string is matching at the start of its suffix. */
module HtmlToWordML {
  import opened Text

  /** Characters that JavaScript's `.` does not match. */
  predicate IsLineTerminator(c: char) {
    c == '\n' || c == '\r' || c == '\U{2028}' || c == '\U{2029}'
  }

  /** Characters of JavaScript's `\s` class. */
  predicate IsRegexSpace(c: char) {
    c == '\t' || c == '\n' || c == '\U{000B}' || c == '\U{000C}' || c == '\r' || c == ' '
    || c == '\U{00A0}' || c == '\U{1680}' || ('\U{2000}' <= c <= '\U{200A}')
    || c == '\U{2028}' || c == '\U{2029}' || c == '\U{202F}' || c == '\U{205F}'
    || c == '\U{3000}' || c == '\U{FEFF}'
  }

  /** A subject character against a lower-case pattern character under the
      `i` flag. Only ASCII letters have a second case here: JavaScript's
      non-Unicode case folding never maps a non-ASCII character to ASCII. */
  predicate SameIgnoringCase(c: char, p: char) {
    c == p || ('a' <= p <= 'z' && c as int == p as int - 32)
  }

  /** `word` (lower case) matches `s` at index k under the `i` flag. */
  predicate MatchesIgnoringCase(s: string, k: nat, word: string) {
    k + |word| <= |s| && forall j :: 0 <= j < |word| ==> SameIgnoringCase(s[k + j], word[j])
  }

  /** Index of the first `>` at or after k. */
  function FindGt(s: string, k: nat): (r: Option<nat>)
    ensures r.Some? ==> k <= r.value < |s| && s[r.value] == '>'
    ensures r.Some? ==> forall j :: k <= j < r.value ==> s[j] != '>'
    ensures r.None? ==> forall j :: k <= j < |s| ==> s[j] != '>'
    decreases |s| - k
  {
    if k >= |s| then None else if s[k] == '>' then Some(k) else FindGt(s, k + 1)
  }

  // ---------------------------------------------------------------------
  // Tag pairs: /<tag[^>]*>(.*?)<\/tag>/gi  (converter.js lines 175-182)
  // ---------------------------------------------------------------------

  /** One match of the tag-pair pattern at the start of a string: the
      captured group is s[open..close] and the whole match is s[..end]. */
  datatype PairMatch = PairMatch(open: nat, close: nat, end: nat)

  /** `</tag>` (tag name in any case) at index k. */
  predicate ClosingTagAt(s: string, k: nat, tag: string) {
    k + 3 + |tag| <= |s| && s[k] == '<' && s[k + 1] == '/'
    && MatchesIgnoringCase(s, k + 2, tag) && s[k + 2 + |tag|] == '>'
  }

  /** What the regular expression accepts as a match at the start of s:
      `<` and the tag name; then `[^>]*>`, which can only end at the first
      `>`; then the group, free of line terminators and, the quantifier
      being lazy, free of any earlier closing tag; then the closing tag. */
  ghost predicate IsPairMatch(s: string, tag: string, m: PairMatch) {
    && |s| > 0 && s[0] == '<' && MatchesIgnoringCase(s, 1, tag)
    && 1 + |tag| < m.open <= m.close && m.end == m.close + 3 + |tag| <= |s|
    && s[m.open - 1] == '>'
    && (forall j :: 1 + |tag| <= j < m.open - 1 ==> s[j] != '>')
    && (forall j :: m.open <= j < m.close ==> !IsLineTerminator(s[j]) && !ClosingTagAt(s, j, tag))
    && ClosingTagAt(s, m.close, tag)
  }

  /** The lazy group `(.*?)` started at k, followed by the closing tag: the
      first position at which the closing tag appears, provided no line
      terminator comes before it. */
  function LazyGroupEnd(s: string, k: nat, tag: string): (r: Option<nat>)
    ensures r.Some? ==> k <= r.value && ClosingTagAt(s, r.value, tag)
    ensures r.Some? ==> forall j :: k <= j < r.value ==> !IsLineTerminator(s[j]) && !ClosingTagAt(s, j, tag)
    ensures r.None? ==> forall c :: k <= c && ClosingTagAt(s, c, tag) ==>
                          exists j :: k <= j < c && IsLineTerminator(s[j])
    decreases |s| - k
  {
    if ClosingTagAt(s, k, tag) then Some(k)
    else if k >= |s| || IsLineTerminator(s[k]) then None
    else LazyGroupEnd(s, k + 1, tag)
  }

  /** The tag-pair pattern tried at the start of s; it finds the one match
      the regular expression accepts there, and no match when there is none. */
  function MatchPairAt(s: string, tag: string): (r: Option<PairMatch>)
    requires tag != []
    ensures r.Some? ==> IsPairMatch(s, tag, r.value) && r.value.end <= |s|
    ensures r.None? ==> forall m :: !IsPairMatch(s, tag, m)
  {
    if |s| < 1 + |tag| || s[0] != '<' || !MatchesIgnoringCase(s, 1, tag) then None
    else match FindGt(s, 1 + |tag|)
      case None => None
      case Some(g) =>
        match LazyGroupEnd(s, g + 1, tag)
        case None => None
        case Some(c) => Some(PairMatch(g + 1, c, c + 3 + |tag|))
  }

  /** `s.replace(/<tag[^>]*>(.*?)<\/tag>/gi, open + '$1' + close)`. */
  function ReplacePairs(s: string, tag: string, open: string, close: string): string
    requires tag != []
    decreases |s|
  {
    if s == [] then []
    else match MatchPairAt(s, tag)
      case Some(m) => open + s[m.open..m.close] + close + ReplacePairs(s[m.end..], tag, open, close)
      case None => [s[0]] + ReplacePairs(s[1..], tag, open, close)
  }

  /** A string without `<` is not touched by a tag-pair pass. */
  lemma {:induction false} ReplacePairsWithoutTags(s: string, tag: string, open: string, close: string)
    requires tag != [] && '<' !in s
    ensures ReplacePairs(s, tag, open, close) == s
  {
    if s != [] {
      assert s[0] != '<';
      ReplacePairsWithoutTags(s[1..], tag, open, close);
      assert s == [s[0]] + s[1..];
    }
  }

  /** A character absent from the input and from the replacement text is
      absent from the output. */
  lemma {:induction false} ReplacePairsAvoids(s: string, tag: string, open: string, close: string, c: char)
    requires tag != [] && c !in s && c !in open && c !in close
    ensures c !in ReplacePairs(s, tag, open, close)
    decreases |s|
  {
    if s != [] {
      match MatchPairAt(s, tag)
      case Some(m) =>
        NotInSlice(s, m.open, m.close, c);
        NotInSlice(s, m.end, |s|, c);
        assert s[m.end..|s|] == s[m.end..];
        ReplacePairsAvoids(s[m.end..], tag, open, close, c);
      case None =>
        NotInSlice(s, 1, |s|, c);
        assert s[1..|s|] == s[1..];
        ReplacePairsAvoids(s[1..], tag, open, close, c);
    }
  }

  // ---------------------------------------------------------------------
  // Line breaks: /<br\s*\/?>/gi  (converter.js line 183)
  // ---------------------------------------------------------------------

  /** First index at or after k that does not hold a `\s` character. */
  function SpaceRunEnd(s: string, k: nat): (r: nat)
    requires k <= |s|
    ensures k <= r <= |s| && (r < |s| ==> !IsRegexSpace(s[r]))
    ensures forall j :: k <= j < r ==> IsRegexSpace(s[j])
    decreases |s| - k
  {
    if k == |s| || !IsRegexSpace(s[k]) then k else SpaceRunEnd(s, k + 1)
  }

  /** What the regular expression accepts as a match of length n at the
      start of s: `<br`, a run of spaces, an optional `/`, then `>`. */
  ghost predicate IsBreakMatch(s: string, n: nat) {
    && 4 <= n <= |s| && s[0] == '<' && MatchesIgnoringCase(s, 1, "br") && s[n - 1] == '>'
    && (forall j :: 3 <= j < n - 2 ==> IsRegexSpace(s[j]))
    && (IsRegexSpace(s[n - 2]) || (n - 2 >= 3 && s[n - 2] == '/') || n == 4)
  }

  /** Length of the match of the line-break pattern at the start of s. The
      space run is greedy; giving characters back cannot help, since the
      next character would then be a space rather than `/` or `>`. */
  function MatchBreakAt(s: string): (r: Option<nat>)
    ensures r.Some? ==> IsBreakMatch(s, r.value)
    ensures r.None? ==> forall n :: !IsBreakMatch(s, n)
  {
    if |s| < 3 || s[0] != '<' || !MatchesIgnoringCase(s, 1, "br") then None
    else
      var k := SpaceRunEnd(s, 3);
      if k < |s| && s[k] == '>' then Some(k + 1)
      else if k + 1 < |s| && s[k] == '/' && s[k + 1] == '>' then Some(k + 2)
      else None
  }

  /** `s.replace(/<br\s*\/?>/gi, '<w:br/>')`. */
  function ReplaceBreaks(s: string): string
    decreases |s|
  {
    if s == [] then []
    else match MatchBreakAt(s)
      case Some(n) => "<w:br/>" + ReplaceBreaks(s[n..])
      case None => [s[0]] + ReplaceBreaks(s[1..])
  }

  lemma {:induction false} ReplaceBreaksAvoids(s: string, c: char)
    requires c !in s && c !in "<w:br/>"
    ensures c !in ReplaceBreaks(s)
    decreases |s|
  {
    if s != [] {
      match MatchBreakAt(s)
      case Some(n) =>
        NotInSlice(s, n, |s|, c);
        assert s[n..|s|] == s[n..];
        ReplaceBreaksAvoids(s[n..], c);
      case None =>
        NotInSlice(s, 1, |s|, c);
        assert s[1..|s|] == s[1..];
        ReplaceBreaksAvoids(s[1..], c);
    }
  }

  // ---------------------------------------------------------------------
  // The rewrite passes in source order (converter.js lines 175-183)
  // ---------------------------------------------------------------------

  const RunEnd := "</w:t></w:r>"
  const ParagraphEnd := "</w:t></w:r></w:p>"

  function HeadingOpen(level: string): string {
    "<w:p><w:pPr><w:pStyle w:val=\"Heading" + level + "\"/></w:pPr><w:r><w:t>"
  }

  const ParagraphOpen := "<w:p><w:r><w:t>"
  const BoldOpen := "<w:r><w:rPr><w:b/></w:rPr><w:t>"
  const ItalicOpen := "<w:r><w:rPr><w:i/></w:rPr><w:t>"

  function RewriteTags(html: string): string {
    var s1 := ReplacePairs(html, "h1", HeadingOpen("1"), ParagraphEnd);
    var s2 := ReplacePairs(s1, "h2", HeadingOpen("2"), ParagraphEnd);
    var s3 := ReplacePairs(s2, "h3", HeadingOpen("3"), ParagraphEnd);
    var s4 := ReplacePairs(s3, "p", ParagraphOpen, ParagraphEnd);
    var s5 := ReplacePairs(s4, "strong", BoldOpen, RunEnd);
    var s6 := ReplacePairs(s5, "b", BoldOpen, RunEnd);
    var s7 := ReplacePairs(s6, "em", ItalicOpen, RunEnd);
    var s8 := ReplacePairs(s7, "i", ItalicOpen, RunEnd);
    ReplaceBreaks(s8)
  }

  lemma HeadingOpenAvoidsAmpersand(level: string)
    requires '&' !in level
    ensures '&' !in HeadingOpen(level)
  {
    assert '&' !in "<w:p><w:pPr><w:pStyle w:val=\"Heading";
    assert '&' !in "\"/></w:pPr><w:r><w:t>";
  }

  lemma RunTemplatesAvoidAmpersand()
    ensures '&' !in ParagraphOpen && '&' !in ParagraphEnd && '&' !in RunEnd
  {
  }

  lemma FormatTemplatesAvoidAmpersand()
    ensures '&' !in BoldOpen && '&' !in ItalicOpen && '&' !in "<w:br/>"
  {
  }

  /** None of the rewrite passes introduces an ampersand. */
  lemma RewriteTagsAvoidsAmpersand(html: string)
    requires '&' !in html
    ensures '&' !in RewriteTags(html)
  {
    HeadingOpenAvoidsAmpersand("1");
    HeadingOpenAvoidsAmpersand("2");
    HeadingOpenAvoidsAmpersand("3");
    RunTemplatesAvoidAmpersand();
    FormatTemplatesAvoidAmpersand();
    var s1 := ReplacePairs(html, "h1", HeadingOpen("1"), ParagraphEnd);
    ReplacePairsAvoids(html, "h1", HeadingOpen("1"), ParagraphEnd, '&');
    var s2 := ReplacePairs(s1, "h2", HeadingOpen("2"), ParagraphEnd);
    ReplacePairsAvoids(s1, "h2", HeadingOpen("2"), ParagraphEnd, '&');
    var s3 := ReplacePairs(s2, "h3", HeadingOpen("3"), ParagraphEnd);
    ReplacePairsAvoids(s2, "h3", HeadingOpen("3"), ParagraphEnd, '&');
    var s4 := ReplacePairs(s3, "p", ParagraphOpen, ParagraphEnd);
    ReplacePairsAvoids(s3, "p", ParagraphOpen, ParagraphEnd, '&');
    var s5 := ReplacePairs(s4, "strong", BoldOpen, RunEnd);
    ReplacePairsAvoids(s4, "strong", BoldOpen, RunEnd, '&');
    var s6 := ReplacePairs(s5, "b", BoldOpen, RunEnd);
    ReplacePairsAvoids(s5, "b", BoldOpen, RunEnd, '&');
    var s7 := ReplacePairs(s6, "em", ItalicOpen, RunEnd);
    ReplacePairsAvoids(s6, "em", ItalicOpen, RunEnd, '&');
    var s8 := ReplacePairs(s7, "i", ItalicOpen, RunEnd);
    ReplacePairsAvoids(s7, "i", ItalicOpen, RunEnd, '&');
    ReplaceBreaksAvoids(s8, '&');
  }

  // ---------------------------------------------------------------------
  // Tag stripping: /<[^>]+>/g  (converter.js line 186)
  // ---------------------------------------------------------------------

  /** Length of the match of `<[^>]+>` at the start of s: from the `<` to
      the first `>`, with at least one character between them. */
  function MatchTagAt(s: string): (r: Option<nat>)
    ensures r.Some? ==> 3 <= r.value <= |s| && s[0] == '<' && s[r.value - 1] == '>'
    ensures r.Some? ==> forall j :: 1 <= j < r.value - 1 ==> s[j] != '>'
    ensures r.None? && |s| > 0 && s[0] == '<' ==> (|s| > 1 && s[1] == '>') || '>' !in s[1..]
  {
    if |s| < 2 || s[0] != '<' || s[1] == '>' then None
    else match FindGt(s, 2)
      case Some(g) => Some(g + 1)
      case None => None
  }

  /** No `<`, then one or more characters other than `>`, then `>`, is left:
      every `<` is followed at once by `>` or has no `>` anywhere after it. */
  ghost predicate NoTagLeft(t: string) {
    forall i :: 0 <= i < |t| && t[i] == '<' ==> (i + 1 < |t| && t[i + 1] == '>') || '>' !in t[i + 1..]
  }

  /** Putting a character before a tag-free text keeps it tag-free, unless
      the character is a '<' that a later '>' would close with at least one
      character between them. */
  lemma PrependKeepsNoTagLeft(c: char, t: string)
    requires NoTagLeft(t)
    requires c == '<' ==> (|t| > 0 && t[0] == '>') || '>' !in t
    ensures NoTagLeft([c] + t)
  {
    var r := [c] + t;
    forall i | 0 <= i < |r| && r[i] == '<'
      ensures (i + 1 < |r| && r[i + 1] == '>') || '>' !in r[i + 1..]
    {
      if i == 0 {
        assert r[1..] == t;
      } else {
        assert r[i] == t[i - 1] && r[i + 1..] == t[i..];
      }
    }
  }

  /** `s.replace(/<[^>]+>/g, '')`. Everything of the tag shape is removed,
      the WordprocessingML tags of the rewrite passes included, and nothing
      is added. */
  function StripTags(s: string): (r: string)
    ensures NoTagLeft(r)
    ensures multiset(r) <= multiset(s)
    ensures |s| > 0 && s[0] != '<' ==> |r| > 0 && r[0] == s[0]
    ensures '<' !in s ==> r == s
    decreases |s|
  {
    if s == [] then []
    else match MatchTagAt(s)
      case Some(n) =>
        assert s == s[..n] + s[n..];
        StripTags(s[n..])
      case None =>
        var t := StripTags(s[1..]);
        assert s == [s[0]] + s[1..];
        assert '>' in t ==> '>' in multiset(t) && '>' in multiset(s[1..]);
        PrependKeepsNoTagLeft(s[0], t);
        [s[0]] + t
  }

  /** Text before the first `<` is kept as it is. */
  lemma {:induction false} StripTagsKeepsText(x: string, y: string)
    requires '<' !in x
    ensures StripTags(x + y) == x + StripTags(y)
  {
    if x == [] {
      assert x + y == y;
    } else {
      var s := x + y;
      assert s[0] == x[0] && s[1..] == x[1..] + y;
      assert MatchTagAt(s).None?;
      var rest := StripTags(y);
      assert StripTags(s) == [x[0]] + StripTags(x[1..] + y);
      StripTagsKeepsText(x[1..], y);
      assert StripTags(x[1..] + y) == x[1..] + rest;
      ConsRegroup(x, rest);
    }
  }

  lemma ConsRegroup(x: string, u: string)
    requires x != []
    ensures [x[0]] + (x[1..] + u) == x + u
  {
    assert x == [x[0]] + x[1..];
  }

  /** A tag `<name>`, with a non-empty name holding no `>`, is removed
      whole, and stripping goes on after it. */
  lemma StripTagsDropsTag(name: string, y: string)
    requires name != [] && '>' !in name
    ensures StripTags("<" + name + ">" + y) == StripTags(y)
  {
    var s := "<" + name + ">" + y;
    var n := |name| + 2;
    assert s[0] == '<' && s[1] == name[0] && s[n - 1] == '>';
    assert forall j :: 2 <= j < n - 1 ==> s[j] == name[j - 1];
    assert MatchTagAt(s) == Some(n);
    assert s[n..] == y;
  }

  /** A `<` that opens no tag is kept, and stripping goes on after it. With
      `StripTagsKeepsText` and `StripTagsDropsTag` this fixes the pass on
      every input. */
  lemma StripTagsKeepsStrayLessThan(y: string)
    requires MatchTagAt("<" + y).None?
    ensures StripTags("<" + y) == "<" + StripTags(y)
  {
    assert ("<" + y)[1..] == y;
  }

  /** Without the tag shape, the paragraph marker cannot occur. */
  lemma NoParagraphMarker(t: string)
    requires NoTagLeft(t)
    ensures !Contains(t, "<w:p>")
  {
    forall k | 0 <= k <= |t| - 5
      ensures !OccursAt(t, "<w:p>", k)
    {
      if t[k] == '<' && t[k + 1] == 'w' {
        assert '>' !in t[k + 1..];
        assert t[k + 1..][3] == t[k + 4];
        assert t[k..k + 5][4] != '>';
      } else {
        assert t[k..k + 5][0] != '<' || t[k..k + 5][1] != 'w';
      }
    }
  }

  // ---------------------------------------------------------------------
  // Entities and the fallback paragraph (converter.js lines 187-194)
  // ---------------------------------------------------------------------

  /** The four decodings in source order, each over the output of the one
      before. */
  function DecodeEntities(s: string): string {
    var a := ReplaceAll(s, "&amp;", "&");
    var l := ReplaceAll(a, "&lt;", "<");
    var g := ReplaceAll(l, "&gt;", ">");
    ReplaceAll(g, "&quot;", "\"")
  }

  /** Text without an ampersand is not changed by decoding. */
  lemma DecodeWithoutAmpersand(s: string)
    requires '&' !in s
    ensures DecodeEntities(s) == s
  {
    ReplaceAllAbsent(s, "&amp;", "&");
    ReplaceAllAbsent(s, "&lt;", "<");
    ReplaceAllAbsent(s, "&gt;", ">");
    ReplaceAllAbsent(s, "&quot;", "\"");
  }

  /** `&amp;` is decoded first, so an escaped entity is decoded twice. */
  lemma DoubleDecoding()
    ensures DecodeEntities("&amp;lt;") == "<"
  {
    ReplaceAllFront("&amp;", "lt;", "&");
    ReplaceAllAbsent("lt;", "&amp;", "&");
    assert ReplaceAll("&amp;lt;", "&amp;", "&") == "&lt;";
    ReplaceAllFront("&lt;", "", "<");
    assert ReplaceAll("&lt;", "&lt;", "<") == "<";
    ReplaceAllAbsent("<", "&gt;", ">");
    ReplaceAllAbsent("<", "&quot;", "\"");
  }

  /** The fallback: the whole text as one run of one paragraph. */
  function WrapInParagraph(t: string): string {
    ParagraphOpen + t + ParagraphEnd
  }

  /** converter.js lines 170-195. The result always holds a paragraph; it is
      wrapped in one when the decoded text holds none. */
  function ConvertHtmlToWordML(html: string): (r: string)
    ensures Contains(r, "<w:p>")
    ensures var d := DecodeEntities(StripTags(RewriteTags(html)));
            (Contains(d, "<w:p>") ==> r == d) && (!Contains(d, "<w:p>") ==> r == WrapInParagraph(d))
  {
    var d := DecodeEntities(StripTags(RewriteTags(html)));
    if Contains(d, "<w:p>") then d
    else
      assert OccursAt(WrapInParagraph(d), "<w:p>", 0);
      WrapInParagraph(d)
  }

  /** For HTML without an ampersand the result is exactly one unstyled
      paragraph holding the text with every tag removed: the headings, bold,
      italic and line breaks inserted by the rewrite passes never survive. */
  lemma AmpersandFreeHtmlIsOneParagraph(html: string)
    requires '&' !in html
    ensures ConvertHtmlToWordML(html) == WrapInParagraph(StripTags(RewriteTags(html)))
    ensures !Contains(StripTags(RewriteTags(html)), "<w:p>")
  {
    var rewritten := RewriteTags(html);
    RewriteTagsAvoidsAmpersand(html);
    var stripped := StripTags(rewritten);
    assert '&' !in stripped by {
      assert multiset(stripped)['&'] <= multiset(rewritten)['&'] == 0;
    }
    DecodeWithoutAmpersand(stripped);
    NoParagraphMarker(stripped);
  }

  lemma AmpersandPassKeepsEscapedTag(x: string)
    requires '&' !in x
    ensures ReplaceAll("&lt;" + x + "&gt;", "&amp;", "&") == "&lt;" + x + "&gt;"
  {
    var t := "lt;" + x + "&gt;";
    assert "&lt;" + x + "&gt;" == ['&'] + t;
    assert !("&amp;" <= ['&'] + t) by {
      assert (['&'] + t)[1] == 'l';
    }
    ReplaceAllStep('&', t, "&amp;", "&");
    ReplaceAllSkips("lt;" + x, "&gt;", "&amp;", "&");
    assert ReplaceAll("&gt;", "&amp;", "&") == "&gt;" by {
      ReplaceAllAbsent("gt;", "&amp;", "&");
      assert !("&amp;" <= "&gt;");
    }
  }

  lemma LessThanPassOpensEscapedTag(x: string)
    requires '&' !in x
    ensures ReplaceAll("&lt;" + x + "&gt;", "&lt;", "<") == "<" + x + "&gt;"
  {
    ReplaceAllFront("&lt;", x + "&gt;", "<");
    assert "&lt;" + x + "&gt;" == "&lt;" + (x + "&gt;");
    ReplaceAllSkips(x, "&gt;", "&lt;", "<");
    assert ReplaceAll("&gt;", "&lt;", "<") == "&gt;" by {
      ReplaceAllAbsent("gt;", "&lt;", "<");
      assert !("&lt;" <= "&gt;");
    }
  }

  lemma GreaterThanPassClosesEscapedTag(x: string)
    requires '&' !in x
    ensures ReplaceAll("<" + x + "&gt;", "&gt;", ">") == "<" + x + ">"
  {
    ReplaceAllSkips("<" + x, "&gt;", "&gt;", ">");
    ReplaceAllFront("&gt;", "", ">");
    assert "&gt;" + "" == "&gt;";
  }

  /** The decoding passes turn an escaped tag into a real one; with
      x = "w:p" this is the one way the result can skip the fallback wrap. */
  lemma EscapedTagIsDecoded(x: string)
    requires '&' !in x
    ensures DecodeEntities("&lt;" + x + "&gt;") == "<" + x + ">"
  {
    AmpersandPassKeepsEscapedTag(x);
    LessThanPassOpensEscapedTag(x);
    GreaterThanPassClosesEscapedTag(x);
    ReplaceAllAbsent("<" + x + ">", "&quot;", "\"");
  }

  /** Stripping then decoding, as `convertHtmlToWordML` does: an escaped
      tag whose text holds neither `<` nor `&` is left alone by the strip
      pass and comes out of the decoding passes as a live tag. */
  lemma EscapedTagSurvivesStripping(x: string)
    requires '<' !in x && '&' !in x
    ensures StripTags("&lt;" + x + "&gt;") == "&lt;" + x + "&gt;"
    ensures DecodeEntities(StripTags("&lt;" + x + "&gt;")) == "<" + x + ">"
  {
    var e := "&lt;" + x + "&gt;";
    assert forall i :: 0 <= i < |e| ==> e[i] != '<' by {
      forall i | 0 <= i < |e| ensures e[i] != '<' {
        if 4 <= i < 4 + |x| { assert e[i] == x[i - 4]; }
      }
    }
    EscapedTagIsDecoded(x);
  }
}
