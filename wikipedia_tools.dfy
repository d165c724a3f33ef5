/**
 * The producer side, `WikipediaSearcher` in tools/wikipedia_tools.py: the
 * file-name sanitiser, the recursive markdown renderer of a section tree,
 * and the text `save_full_text_to_markdown` writes for the markdown format.
 */
module WikipediaTools {
  import opened Text

  // ---------------------------------------------------------------------------
  // `_sanitize_filename`
  // ---------------------------------------------------------------------------

  /** The characters `re.sub(r'[<>:"/\\|?*]', '', text)` removes. */
  predicate InvalidFilenameChar(c: char) {
    c in "<>:\"/\\|?*"
  }

  function RemoveInvalidChars(s: string): (r: string)
    ensures |r| <= |s|
    ensures forall k :: 0 <= k < |r| ==> !InvalidFilenameChar(r[k]) && r[k] in s
    ensures (forall k :: 0 <= k < |s| ==> !InvalidFilenameChar(s[k])) ==> r == s
  {
    if s == [] then []
    else (if InvalidFilenameChar(s[0]) then [] else [s[0]]) + RemoveInvalidChars(s[1..])
  }

  /**
   * The filter works character by character: the text of a concatenation is
   * filtered part by part, and one character is kept exactly when it is
   * valid, so the valid characters survive in their order.
   */
  lemma {:induction false} RemoveInvalidCharsAppend(a: string, b: string)
    ensures RemoveInvalidChars(a + b) == RemoveInvalidChars(a) + RemoveInvalidChars(b)
    decreases |a|
  {
    if a == [] {
      assert a + b == b;
    } else {
      assert (a + b)[1..] == a[1..] + b;
      RemoveInvalidCharsAppend(a[1..], b);
    }
  }

  lemma RemoveInvalidCharsOne(c: char)
    ensures RemoveInvalidChars([c]) == if InvalidFilenameChar(c) then [] else [c]
  {
  }

  /** `s.lstrip('_')` */
  function LStripUnderscores(s: string): (r: string)
    ensures |r| <= |s|
    ensures r == [] || r[0] != '_'
    ensures forall k :: 0 <= k < |r| ==> r[k] in s
    ensures s == [] || s[0] != '_' ==> r == s
    ensures r != [] ==> r[|r| - 1] == s[|s| - 1]
  {
    if s != [] && s[0] == '_' then LStripUnderscores(s[1..]) else s
  }

  /** `s.rstrip('_')` */
  function RStripUnderscores(s: string): (r: string)
    ensures |r| <= |s|
    ensures r == [] || r[|r| - 1] != '_'
    ensures forall k :: 0 <= k < |r| ==> r[k] in s
    ensures s == [] || s[|s| - 1] != '_' ==> r == s
    ensures r != [] ==> r[0] == s[0]
  {
    if s != [] && s[|s| - 1] == '_' then RStripUnderscores(s[..|s| - 1]) else s
  }

  /** `s.strip('_')` */
  function StripUnderscores(s: string): (r: string)
    ensures |r| <= |s|
    ensures r == [] || (r[0] != '_' && r[|r| - 1] != '_')
    ensures forall k :: 0 <= k < |r| ==> r[k] in s
    ensures s == [] || (s[0] != '_' && s[|s| - 1] != '_') ==> r == s
  {
    LStripUnderscores(RStripUnderscores(s))
  }

  /** `s[:n]` */
  function Take(s: string, n: nat): (r: string)
    ensures |r| == if |s| < n then |s| else n
    ensures forall k :: 0 <= k < |r| ==> r[k] == s[k]
  {
    if |s| <= n then s else s[..n]
  }

  /**
   * `_sanitize_filename(text)`: drop the invalid characters, turn every
   * whitespace run into `_`, keep the first 50 characters, then strip `_`
   * from both ends. Truncation comes before the strip.
   */
  function SanitizeFilename(text: string): (r: string)
    ensures |r| <= 50
    ensures forall k :: 0 <= k < |r| ==> !InvalidFilenameChar(r[k]) && !IsSpace(r[k])
    ensures r == [] || (r[0] != '_' && r[|r| - 1] != '_')
  {
    var removed := RemoveInvalidChars(text);
    var collapsed := CollapseSpaces(removed);
    CollapseSpacesChars(removed);
    assert forall k :: 0 <= k < |collapsed| ==> !InvalidFilenameChar(collapsed[k]) && !IsSpace(collapsed[k]) by {
      forall k | 0 <= k < |collapsed| ensures !InvalidFilenameChar(collapsed[k]) && !IsSpace(collapsed[k]) {
        assert collapsed[k] == '_' || collapsed[k] in removed;
      }
    }
    var truncated := Take(collapsed, 50);
    StripUnderscores(truncated)
  }

  /** A sanitised name is its own sanitised name. */
  lemma SanitizeIdempotent(text: string)
    ensures SanitizeFilename(SanitizeFilename(text)) == SanitizeFilename(text)
  {
    var r := SanitizeFilename(text);
    assert RemoveInvalidChars(r) == r;
    CollapseSpacesNoSpace(r);
  }

  /**
   * For a short text with no invalid characters that neither starts nor ends
   * with whitespace or `_`, the name is the words of the text joined by `_`.
   */
  lemma SanitizeJoinsWords(text: string)
    requires |text| <= 50
    requires forall k :: 0 <= k < |text| ==> !InvalidFilenameChar(text[k])
    requires text == [] || (!IsSpace(text[0]) && !IsSpace(text[|text| - 1]) && text[0] != '_' && text[|text| - 1] != '_')
    ensures SanitizeFilename(text) == JoinWith(Words(text), '_')
  {
    assert RemoveInvalidChars(text) == text;
    CollapseSpacesJoinsWords(text);
    CollapsedKeptWhole(text);
  }

  /** Collapsing a short text that neither starts nor ends with white space or `_` leaves nothing to truncate or strip. */
  lemma CollapsedKeptWhole(text: string)
    requires |text| <= 50
    requires text == [] || (!IsSpace(text[0]) && !IsSpace(text[|text| - 1]) && text[0] != '_' && text[|text| - 1] != '_')
    ensures StripUnderscores(Take(CollapseSpaces(text), 50)) == CollapseSpaces(text)
  {
    var c := CollapseSpaces(text);
    if text != [] {
      CollapseSpacesEnds(text);
    }
    assert Take(c, 50) == c;
  }

  /** When the 50th kept character is `_`, the strip shortens the name below 50. */
  lemma TruncateBeforeStrip(text: string)
    requires var c := CollapseSpaces(RemoveInvalidChars(text)); |c| >= 50 && c[49] == '_'
    ensures |SanitizeFilename(text)| < 50
  {
    var t := Take(CollapseSpaces(RemoveInvalidChars(text)), 50);
    assert |t| == 50 && t[49] == '_';
    assert RStripUnderscores(t) == RStripUnderscores(t[..49]);
  }

  // ---------------------------------------------------------------------------
  // `_format_sections_to_markdown`
  // ---------------------------------------------------------------------------

  /** A `WikipediaPageSection`: a title, its text and its subsections. */
  datatype WikiSection = WikiSection(title: string, text: string, sections: seq<WikiSection>)

  /** `min(level, 6)` copies of `#`; none for a level below 1. */
  function HeadingMarks(level: int): (r: string)
    ensures level >= 1 ==> 1 <= |r| <= 6
    ensures |r| == if level <= 0 then 0 else if level < 6 then level else 6
    ensures forall k :: 0 <= k < |r| ==> r[k] == '#'
  {
    var n := if level <= 0 then 0 else if level < 6 then level else 6;
    seq(n, k => '#')
  }

  /** The heading line of a section, without its trailing `\n\n`. */
  function HeadingLine(level: int, title: string): (r: string)
    ensures level >= 1 ==> r != [] && r[0] == '#'
  {
    HeadingMarks(level) + " " + title
  }

  /** One section rendered at `level`: heading, stripped non-blank text, then its subsections one level deeper. */
  function FormatSection(s: WikiSection, level: int): string
    decreases s, 1
  {
    HeadingLine(level, s.title) + "\n\n"
    + (if Strip(s.text) != [] then Strip(s.text) + "\n\n" else "")
    + (if s.sections != [] then FormatSections(s.sections, level + 1) else "")
  }

  /** `_format_sections_to_markdown(sections, level)`: the sections in order, each followed by its subtree. */
  function FormatSections(ss: seq<WikiSection>, level: int): (r: string)
    ensures r == [] <==> ss == []
    ensures ss != [] && level >= 1 ==> r[0] == '#'
    decreases ss, 0
  {
    if ss == [] then "" else FormatSection(ss[0], level) + FormatSections(ss[1..], level)
  }

  /** The text the renderer writes: blocks, each followed by a blank line. */
  function JoinBlocks(blocks: seq<string>): string {
    if blocks == [] then "" else blocks[0] + "\n\n" + JoinBlocks(blocks[1..])
  }

  /** The blocks of one section: its heading line, its body when not blank, then its subtree. */
  function SectionBlocks(s: WikiSection, level: int): (bs: seq<string>)
    ensures bs != [] && bs[0] == HeadingLine(level, s.title)
    decreases s, 1
  {
    [HeadingLine(level, s.title)]
    + (if Strip(s.text) != [] then [Strip(s.text)] else [])
    + SectionsBlocks(s.sections, level + 1)
  }

  function SectionsBlocks(ss: seq<WikiSection>, level: int): seq<string>
    decreases ss, 0
  {
    if ss == [] then [] else SectionBlocks(ss[0], level) + SectionsBlocks(ss[1..], level)
  }

  /** The headings of a tree in pre-order, each with the level it is rendered at. */
  function Outline(ss: seq<WikiSection>, level: int): seq<(string, int)>
    decreases ss
  {
    if ss == [] then [] else [(ss[0].title, level)] + Outline(ss[0].sections, level + 1) + Outline(ss[1..], level)
  }

  lemma {:induction false} JoinBlocksAppend(a: seq<string>, b: seq<string>)
    ensures JoinBlocks(a + b) == JoinBlocks(a) + JoinBlocks(b)
    decreases |a|
  {
    if a == [] {
      assert a + b == b;
    } else {
      assert (a + b)[1..] == a[1..] + b;
      JoinBlocksAppend(a[1..], b);
    }
  }

  /** The renderer writes exactly the blocks, each followed by a blank line. */
  lemma {:induction false} FormatSectionsIsBlocks(ss: seq<WikiSection>, level: int)
    ensures FormatSections(ss, level) == JoinBlocks(SectionsBlocks(ss, level))
    decreases ss, 0
  {
    if ss != [] {
      FormatSectionIsBlocks(ss[0], level);
      FormatSectionsIsBlocks(ss[1..], level);
      JoinBlocksAppend(SectionBlocks(ss[0], level), SectionsBlocks(ss[1..], level));
    }
  }

  lemma {:induction false} FormatSectionIsBlocks(s: WikiSection, level: int)
    ensures FormatSection(s, level) == JoinBlocks(SectionBlocks(s, level))
    decreases s, 1
  {
    var head := [HeadingLine(level, s.title)];
    var body := if Strip(s.text) != [] then [Strip(s.text)] else [];
    var sub := SectionsBlocks(s.sections, level + 1);
    FormatSectionsIsBlocks(s.sections, level + 1);
    JoinBlocksAppend(head + body, sub);
    JoinBlocksAppend(head, body);
    assert JoinBlocks(head) == HeadingLine(level, s.title) + "\n\n";
    assert JoinBlocks(body) == if Strip(s.text) != [] then Strip(s.text) + "\n\n" else "";
    assert s.sections == [] ==> JoinBlocks(sub) == "";
  }

  /** The heading blocks among `bs`: those that start with `#`. */
  function HeadingBlocks(bs: seq<string>): seq<string> {
    if bs == [] then []
    else (if bs[0] != [] && bs[0][0] == '#' then [bs[0]] else []) + HeadingBlocks(bs[1..])
  }

  lemma {:induction false} HeadingBlocksAppend(a: seq<string>, b: seq<string>)
    ensures HeadingBlocks(a + b) == HeadingBlocks(a) + HeadingBlocks(b)
    decreases |a|
  {
    if a == [] {
      assert a + b == b;
    } else {
      assert (a + b)[1..] == a[1..] + b;
      HeadingBlocksAppend(a[1..], b);
    }
  }

  /** No section text, once stripped, starts with `#`. */
  predicate PlainTexts(ss: seq<WikiSection>)
    decreases ss
  {
    forall k :: 0 <= k < |ss| ==>
      && (Strip(ss[k].text) == [] || Strip(ss[k].text)[0] != '#')
      && PlainTexts(ss[k].sections)
  }

  /** The heading lines of the rendered tree, in pre-order, one per section. */
  function OutlineLines(o: seq<(string, int)>): seq<string> {
    if o == [] then [] else [HeadingLine(o[0].1, o[0].0)] + OutlineLines(o[1..])
  }

  lemma {:induction false} OutlineLinesAppend(a: seq<(string, int)>, b: seq<(string, int)>)
    ensures OutlineLines(a + b) == OutlineLines(a) + OutlineLines(b)
    decreases |a|
  {
    if a == [] {
      assert a + b == b;
    } else {
      assert (a + b)[1..] == a[1..] + b;
      OutlineLinesAppend(a[1..], b);
    }
  }

  /**
   * Rendered from level 1 or deeper, a tree whose texts do not start with
   * `#` has exactly one heading block per section, in pre-order, each with
   * `min(level, 6)` marks.
   */
  lemma {:induction false} HeadingsInPreOrder(ss: seq<WikiSection>, level: int)
    requires level >= 1 && PlainTexts(ss)
    ensures HeadingBlocks(SectionsBlocks(ss, level)) == OutlineLines(Outline(ss, level))
    decreases ss
  {
    if ss != [] {
      var s := ss[0];
      PlainTextsParts(ss);
      assert SectionsBlocks(ss, level) == SectionBlocks(s, level) + SectionsBlocks(ss[1..], level);
      HeadingsInPreOrder(s.sections, level + 1);
      HeadingsInPreOrder(ss[1..], level);
      HeadingBlocksAppend(SectionBlocks(s, level), SectionsBlocks(ss[1..], level));
      SectionHeadingsFirst(s, level);
      OutlineLinesParts(ss, level);
    }
  }

  /** The outline lines of a non-empty forest: the first heading, its subtree's lines, then the rest's. */
  lemma OutlineLinesParts(ss: seq<WikiSection>, level: int)
    requires ss != []
    ensures OutlineLines(Outline(ss, level))
      == [HeadingLine(level, ss[0].title)] + OutlineLines(Outline(ss[0].sections, level + 1)) + OutlineLines(Outline(ss[1..], level))
  {
    var s := ss[0];
    assert Outline(ss, level) == [(s.title, level)] + Outline(s.sections, level + 1) + Outline(ss[1..], level);
    OutlineLinesAppend([(s.title, level)] + Outline(s.sections, level + 1), Outline(ss[1..], level));
    OutlineLinesAppend([(s.title, level)], Outline(s.sections, level + 1));
    assert OutlineLines([(s.title, level)]) == [HeadingLine(level, s.title)];
  }

  lemma PlainTextsParts(ss: seq<WikiSection>)
    requires ss != [] && PlainTexts(ss)
    ensures Strip(ss[0].text) == [] || Strip(ss[0].text)[0] != '#'
    ensures PlainTexts(ss[0].sections) && PlainTexts(ss[1..])
  {
    assert forall k :: 0 <= k < |ss[1..]| ==> ss[1..][k] == ss[k + 1];
  }

  /** A section's own blocks contribute its heading, then its subsections' headings. */
  lemma SectionHeadingsFirst(s: WikiSection, level: int)
    requires level >= 1 && (Strip(s.text) == [] || Strip(s.text)[0] != '#')
    ensures HeadingBlocks(SectionBlocks(s, level)) == [HeadingLine(level, s.title)] + HeadingBlocks(SectionsBlocks(s.sections, level + 1))
  {
    var head := [HeadingLine(level, s.title)];
    var body := if Strip(s.text) != [] then [Strip(s.text)] else [];
    assert SectionBlocks(s, level) == head + body + SectionsBlocks(s.sections, level + 1);
    HeadingBlocksAppend(head + body, SectionsBlocks(s.sections, level + 1));
    HeadingBlocksAppend(head, body);
    assert HeadingBlocks(body) == [];
    assert HeadingBlocks(head) == [HeadingLine(level, s.title)];
  }

  // ---------------------------------------------------------------------------
  // `save_full_text_to_markdown`, markdown format
  // ---------------------------------------------------------------------------

  /** The `result` dict of `get_full_text`, with the timestamp as opaque text. */
  datatype Article = Article(
    title: string,
    query: string,
    url: string,
    format: string,
    timestamp: string,
    summary: string,
    fullText: string,
    sections: seq<WikiSection>)

  /** A bold `**Name:** value` line of the header. */
  function MetadataLine(name: string, value: string): string {
    "**" + name + ":** " + value
  }

  /** The five name/value pairs of the header, in the order they are written. */
  function HeaderFields(a: Article, preserveHierarchy: bool): seq<(string, string)> {
    [ ("Query", a.query)
    , ("URL", "[" + a.url + "](" + a.url + ")")
    , ("Extract Format", a.format)
    , ("Hierarchy Preserved", if preserveHierarchy then "Yes" else "No")
    , ("Extracted on", a.timestamp)
    ]
  }

  /** The seven header lines, one per `f.write`, each written followed by a blank line. */
  function HeaderBlocks(a: Article, preserveHierarchy: bool): (bs: seq<string>)
    ensures |bs| == 7 && bs[6] == "---"
  {
    var f := HeaderFields(a, preserveHierarchy);
    ["# " + a.title] + seq(5, k requires 0 <= k < 5 => MetadataLine(f[k].0, f[k].1)) + ["---"]
  }

  /** The metadata block written before the body, ending with the `---` separator. */
  function MarkdownHeader(a: Article, preserveHierarchy: bool): string {
    JoinBlocks(HeaderBlocks(a, preserveHierarchy))
  }

  /**
   * What follows the separator: with preserved hierarchy and the `wiki`
   * format, a `## Summary` heading, the summary and the rendered sections
   * (or a placeholder); otherwise the raw full text.
   */
  function MarkdownBody(a: Article, preserveHierarchy: bool): string {
    if preserveHierarchy && Lower(a.format) == "wiki" then
      "## Summary\n\n" + a.summary + "\n\n"
      + (if a.sections != [] then FormatSections(a.sections, 2) else "*No sections found.*\n\n")
    else a.fullText
  }

  /** The whole markdown file. */
  function MarkdownFile(a: Article, preserveHierarchy: bool): string {
    MarkdownHeader(a, preserveHierarchy) + MarkdownBody(a, preserveHierarchy)
  }

  /** The generated file name: the sanitised query between fixed parts, `.html` only for the `html` format. */
  function FullTextFilename(query: string, extractFormat: string, preserveHierarchy: bool, timestamp: string): (name: string)
    ensures StartsWith(name, "wikipedia_fulltext_")
    ensures Lower(extractFormat) == "html" ==> EndsWith(name, ".html")
    ensures Lower(extractFormat) != "html" ==> EndsWith(name, ".md")
  {
    var isHtml := Lower(extractFormat) == "html";
    var extension := if isHtml then ".html" else ".md";
    var middle := SanitizeFilename(query) + "_" + extractFormat
      + (if preserveHierarchy then "_structured" else "") + "_" + timestamp;
    FramedBy("wikipedia_fulltext_", middle, extension);
    "wikipedia_fulltext_" + middle + extension
  }
}
