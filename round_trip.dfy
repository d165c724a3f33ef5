/**
 * The producer and the parser together: the markdown file that
 * `save_full_text_to_markdown` writes (tools/wikipedia_tools.py) is the
 * text `parse_markdown_content` (mongo/wikipedia.py) later reads back.
 */
module RoundTrip {
  import opened Wrappers
  import opened Text
  import opened Documents
  import opened Parser
  import opened ParserProperties
  import opened WikipediaTools

  // ---------------------------------------------------------------------------
  // What single lines do to the parser
  // ---------------------------------------------------------------------------

  /** A blank line changes nothing, in any phase. */
  lemma BlankLineStep(lines: seq<string>, i: nat, st: ParseState)
    requires i < |lines| && UniqueKeys(st.doc.sections) && lines[i] == ""
    ensures Step(lines, i, st) == st
  {
  }

  /** A line starting with `#` changes nothing, in any phase. */
  lemma HashLineStep(lines: seq<string>, i: nat, st: ParseState)
    requires i < |lines| && UniqueKeys(st.doc.sections) && lines[i] != [] && lines[i][0] == '#'
    ensures Step(lines, i, st) == st
  {
    StripKeepsFirst(lines[i]);
    assert Strip(lines[i])[..1] == "#";
  }

  /** The `---` line ends the metadata phase and changes nothing else. */
  lemma SeparatorStep(lines: seq<string>, i: nat, st: ParseState)
    requires i < |lines| && UniqueKeys(st.doc.sections) && lines[i] == "---"
    ensures Step(lines, i, st) == st.(separatorFound := true)
  {
    assert Strip("---") == "---";
  }

  /** Before the separator, a stripped line starting with `**` and holding a `:` goes to the metadata branch. */
  lemma MetadataBranchStep(lines: seq<string>, i: nat, st: ParseState)
    requires i < |lines| && UniqueKeys(st.doc.sections) && !st.separatorFound
    requires StartsWith(Strip(lines[i]), "**") && ':' in Strip(lines[i])
    ensures Step(lines, i, st) == st.(doc := ApplyMetadataLine(st.doc, Strip(lines[i])))
  {
    var line := Strip(lines[i]);
    assert line[0] == '*';
    assert !StartsWith(line, "#");
  }

  /** A line `**Name:** value` with a stripped, non-empty value is its own stripped form. */
  lemma MetadataLineStripped(name: string, value: string)
    requires value != [] && Trimmed(value)
    ensures Strip("**" + name + ":** " + value) == "**" + name + ":** " + value
  {
    var p := "**" + name + ":**";
    assert "**" + name + ":** " + value == p + (" " + value);
    StripAfterPrefix(p, " " + value);
    RStripAfterPrefixSpace(value);
    assert RStrip(value) == value;
  }

  /**
   * Before the separator, a line `**Name:** value` with a stripped,
   * non-empty value records the normalised name with that value.
   */
  lemma MetadataLineStep(lines: seq<string>, i: nat, st: ParseState, name: string, value: string)
    requires i < |lines| && UniqueKeys(st.doc.sections) && !st.separatorFound
    requires name != [] && ':' !in name
    requires value != [] && Trimmed(value)
    requires lines[i] == MetadataLine(name, value)
    ensures Step(lines, i, st) == st.(doc := RecordMetadata(st.doc, MetadataKey(name), value))
  {
    MetadataLineStripped(name, value);
    var line := lines[i];
    assert line[..2] == "**";
    assert line[2 + |name|] == ':';
    MetadataBranchStep(lines, i, st);
    assert Strip(value) == value;
    MetadataLineEntry(name, value);
  }

  // ---------------------------------------------------------------------------
  // The header keys
  // ---------------------------------------------------------------------------

  /** `MetadataKey` of a name that is already stripped. */
  lemma MetadataKeyOfTrimmed(name: string)
    requires name != [] && !IsSpace(name[0]) && !IsSpace(name[|name| - 1])
    ensures MetadataKey(name) == ReplaceChar(Lower(name), ' ', '_')
  {
    assert RStrip(name) == name;
    assert LStrip(name) == name;
  }

  lemma QueryKey()
    ensures MetadataKey("Query") == "query"
  {
    MetadataKeyOfTrimmed("Query");
    assert Lower("Query") == "query";
  }

  lemma UrlKey()
    ensures MetadataKey("URL") == "url"
  {
    MetadataKeyOfTrimmed("URL");
    assert Lower("URL") == "url";
  }

  lemma ExtractFormatKey()
    ensures MetadataKey("Extract Format") == "extract_format"
  {
    MetadataKeyOfTrimmed("Extract Format");
    assert Lower("Extract Format") == "extract format";
  }

  lemma HierarchyPreservedKey()
    ensures MetadataKey("Hierarchy Preserved") == "hierarchy_preserved"
  {
    MetadataKeyOfTrimmed("Hierarchy Preserved");
    assert Lower("Hierarchy Preserved") == "hierarchy preserved";
  }

  lemma ExtractedOnKey()
    ensures MetadataKey("Extracted on") == "extracted_on"
  {
    MetadataKeyOfTrimmed("Extracted on");
    assert Lower("Extracted on") == "extracted on";
  }

  // ---------------------------------------------------------------------------
  // The header read back
  // ---------------------------------------------------------------------------

  /** Blocks as the lines `split('\n')` gives back: each block, then an empty line. */
  function BlankSeparated(bs: seq<string>): (ls: seq<string>)
    ensures |ls| == 2 * |bs|
    ensures forall k :: 0 <= k < |bs| ==> ls[2 * k] == bs[k] && ls[2 * k + 1] == ""
  {
    if bs == [] then [] else [bs[0], ""] + BlankSeparated(bs[1..])
  }

  /** Splitting blocks that hold no newline, then any text, gives back the blocks and the text's lines. */
  lemma {:induction false} SplitJoinBlocks(bs: seq<string>, body: string)
    requires forall k :: 0 <= k < |bs| ==> '\n' !in bs[k]
    ensures SplitLines(JoinBlocks(bs) + body) == BlankSeparated(bs) + SplitLines(body)
    decreases |bs|
  {
    if bs == [] {
      assert JoinBlocks(bs) + body == body;
    } else {
      var rest := JoinBlocks(bs[1..]) + body;
      assert JoinBlocks(bs) + body == bs[0] + "\n\n" + rest;
      SplitLinesBlock(bs[0], rest);
      SplitJoinBlocks(bs[1..], body);
    }
  }

  /** The metadata lines `fields` record, one after the other. */
  function RecordFields(doc: Document, fields: seq<(string, string)>): (r: Document)
    ensures r.sections == doc.sections && r.hierarchy == doc.hierarchy && r.summary == doc.summary
    decreases |fields|
  {
    if fields == [] then doc
    else RecordFields(RecordMetadata(doc, MetadataKey(fields[0].0), fields[0].1), fields[1..])
  }

  /** A metadata line may be recorded: a name without `:` and a stripped, non-empty value. */
  predicate ReadableField(f: (string, string)) {
    f.0 != [] && ':' !in f.0 && f.1 != [] && Trimmed(f.1)
  }

  /** Before the separator, a metadata line followed by a blank line records its field. */
  lemma MetadataPairRun(lines: seq<string>, i: nat, st: ParseState, f: (string, string))
    requires i + 2 <= |lines| && UniqueKeys(st.doc.sections) && !st.separatorFound
    requires ReadableField(f) && lines[i] == MetadataLine(f.0, f.1) && lines[i + 1] == ""
    ensures Run(lines, i, st) == Run(lines, i + 2, st.(doc := RecordMetadata(st.doc, MetadataKey(f.0), f.1)))
  {
    MetadataLineStep(lines, i, st, f.0, f.1);
    BlankLineStep(lines, i + 1, st.(doc := RecordMetadata(st.doc, MetadataKey(f.0), f.1)));
  }

  /** From line `i` on, each field's metadata line followed by a blank line. */
  predicate FieldLinesAt(lines: seq<string>, i: nat, fields: seq<(string, string)>) {
    && i + 2 * |fields| <= |lines|
    && forall k :: 0 <= k < |fields| ==>
      lines[i + 2 * k] == MetadataLine(fields[k].0, fields[k].1) && lines[i + 2 * k + 1] == ""
  }

  predicate AllReadable(fields: seq<(string, string)>) {
    forall k :: 0 <= k < |fields| ==> ReadableField(fields[k])
  }

  lemma FieldLinesTail(lines: seq<string>, i: nat, fields: seq<(string, string)>)
    requires fields != [] && FieldLinesAt(lines, i, fields) && AllReadable(fields)
    ensures lines[i] == MetadataLine(fields[0].0, fields[0].1) && lines[i + 1] == ""
    ensures FieldLinesAt(lines, i + 2, fields[1..]) && AllReadable(fields[1..]) && ReadableField(fields[0])
  {
    assert lines[i + 2 * 0] == MetadataLine(fields[0].0, fields[0].1);
    forall k | 0 <= k < |fields[1..]|
      ensures lines[i + 2 + 2 * k] == MetadataLine(fields[1..][k].0, fields[1..][k].1)
      ensures lines[i + 2 + 2 * k + 1] == ""
    {
      assert fields[1..][k] == fields[k + 1];
      assert i + 2 * (k + 1) == i + 2 + 2 * k;
    }
  }

  /**
   * Before the separator, metadata lines each followed by a blank line
   * record their fields in order: the run from line `i` is the run from
   * line `n`, after the fields, with the fields recorded.
   */
  lemma {:induction false} MetadataBlocksRun(lines: seq<string>, i: nat, st: ParseState, fields: seq<(string, string)>,
                                             n: nat, target: ParseState)
    requires FieldLinesAt(lines, i, fields) && AllReadable(fields)
    requires UniqueKeys(st.doc.sections) && !st.separatorFound
    requires n == i + 2 * |fields| && target == st.(doc := RecordFields(st.doc, fields))
    ensures UniqueKeys(target.doc.sections) && Run(lines, i, st) == Run(lines, n, target)
    decreases |fields|
  {
    if fields != [] {
      var f := fields[0];
      FieldLinesTail(lines, i, fields);
      var st1 := st.(doc := RecordMetadata(st.doc, MetadataKey(f.0), f.1));
      MetadataPairRun(lines, i, st, f);
      MetadataBlocksRun(lines, i + 2, st1, fields[1..], n, target);
    }
  }

  /** The metadata the header records. */
  function HeaderMetadata(a: Article, preserveHierarchy: bool): map<string, string> {
    map[]["query" := a.query]
      ["url" := "[" + a.url + "](" + a.url + ")"]
      ["extract_format" := a.format]
      ["hierarchy_preserved" := if preserveHierarchy then "Yes" else "No"]
      ["extracted_on" := a.timestamp]
  }

  /** The document once the header has been read: its metadata and the four promoted fields. */
  function HeaderDocument(a: Article, preserveHierarchy: bool): Document {
    EmptyDocument.(
      metadata := HeaderMetadata(a, preserveHierarchy),
      query := Some(a.query),
      url := Some("[" + a.url + "](" + a.url + ")"),
      format := Some(a.format),
      extractedAt := Some(a.timestamp))
  }

  /** Recording the five header fields into an empty document gives the header document. */
  lemma HeaderFieldsRecorded(a: Article, preserveHierarchy: bool)
    ensures RecordFields(EmptyDocument, HeaderFields(a, preserveHierarchy)) == HeaderDocument(a, preserveHierarchy)
  {
    var f := HeaderFields(a, preserveHierarchy);
    QueryKey();
    UrlKey();
    ExtractFormatKey();
    HierarchyPreservedKey();
    ExtractedOnKey();
    var d1 := RecordMetadata(EmptyDocument, "query", f[0].1);
    var d2 := RecordMetadata(d1, "url", f[1].1);
    var d3 := RecordMetadata(d2, "extract_format", f[2].1);
    var d4 := RecordMetadata(d3, "hierarchy_preserved", f[3].1);
    var d5 := RecordMetadata(d4, "extracted_on", f[4].1);
    assert RecordFields(d4, f[4..]) == d5;
    assert RecordFields(d3, f[3..]) == d5;
    assert RecordFields(d2, f[2..]) == d5;
    assert RecordFields(d1, f[1..]) == d5;
  }

  /** The title line and the blank line after it leave the initial state as it is. */
  lemma TitleRun(lines: seq<string>, title: string)
    requires 2 <= |lines| && lines[0] == "# " + title && lines[1] == ""
    ensures Run(lines, 0, InitialState) == Run(lines, 2, InitialState)
  {
    assert lines[0][0] == '#';
    HashLineStep(lines, 0, InitialState);
    BlankLineStep(lines, 1, InitialState);
  }

  /** The separator and the blank line after it end the metadata phase. */
  lemma SeparatorRun(lines: seq<string>, i: nat, st: ParseState)
    requires i + 2 <= |lines| && UniqueKeys(st.doc.sections) && lines[i] == "---" && lines[i + 1] == ""
    ensures Run(lines, i, st) == Run(lines, i + 2, st.(separatorFound := true))
  {
    SeparatorStep(lines, i, st);
    BlankLineStep(lines, i + 1, st.(separatorFound := true));
  }

  /** The header's fields can all be read back when the query, format and timestamp are stripped and non-empty. */
  lemma HeaderFieldsReadable(a: Article, preserveHierarchy: bool)
    requires a.query != [] && Trimmed(a.query)
    requires a.format != [] && Trimmed(a.format)
    requires a.timestamp != [] && Trimmed(a.timestamp)
    ensures forall k :: 0 <= k < |HeaderFields(a, preserveHierarchy)| ==> ReadableField(HeaderFields(a, preserveHierarchy)[k])
  {
    var f := HeaderFields(a, preserveHierarchy);
    assert ReadableField(f[0]);
    assert ReadableField(f[1]);
    assert ReadableField(f[2]);
    assert ReadableField(f[3]);
    assert ReadableField(f[4]);
  }

  /** No header block holds a newline when the article's fields hold none. */
  lemma HeaderBlocksOneLine(a: Article, preserveHierarchy: bool)
    requires '\n' !in a.title && '\n' !in a.query && '\n' !in a.url
    requires '\n' !in a.format && '\n' !in a.timestamp
    ensures forall k :: 0 <= k < |HeaderBlocks(a, preserveHierarchy)| ==> '\n' !in HeaderBlocks(a, preserveHierarchy)[k]
  {
    var bs := HeaderBlocks(a, preserveHierarchy);
    var f := HeaderFields(a, preserveHierarchy);
    forall j | 1 <= j < 6
      ensures '\n' !in bs[j]
    {
      assert bs[j] == "**" + f[j - 1].0 + ":** " + f[j - 1].1;
    }
  }

  /** Where each header line lands among the lines of a saved file. */
  lemma HeaderLinesAt(a: Article, preserveHierarchy: bool, body: string)
    requires '\n' !in a.title && '\n' !in a.query && '\n' !in a.url
    requires '\n' !in a.format && '\n' !in a.timestamp
    ensures var lines := SplitLines(MarkdownHeader(a, preserveHierarchy) + body);
      && 14 <= |lines|
      && lines[0] == "# " + a.title && lines[1] == ""
      && (forall k :: 0 <= k < |HeaderFields(a, preserveHierarchy)| ==>
            lines[2 + 2 * k] == MetadataLine(HeaderFields(a, preserveHierarchy)[k].0, HeaderFields(a, preserveHierarchy)[k].1)
            && lines[2 + 2 * k + 1] == "")
      && lines[12] == "---" && lines[13] == ""
      && lines[14..] == SplitLines(body)
  {
    var bs := HeaderBlocks(a, preserveHierarchy);
    var f := HeaderFields(a, preserveHierarchy);
    HeaderBlocksOneLine(a, preserveHierarchy);
    SplitJoinBlocks(bs, body);
    var lines := SplitLines(MarkdownHeader(a, preserveHierarchy) + body);
    var blank := BlankSeparated(bs);
    assert lines == blank + SplitLines(body);
    forall k | 0 <= k < |f|
      ensures lines[2 + 2 * k] == MetadataLine(f[k].0, f[k].1) && lines[2 + 2 * k + 1] == ""
    {
      var j := k + 1;
      assert 2 + 2 * k == 2 * j;
      assert lines[2 * j] == blank[2 * j] == bs[j];
      assert lines[2 * j + 1] == blank[2 * j + 1] == "";
    }
    assert lines[0] == blank[0] && lines[1] == blank[1];
    assert lines[12] == blank[12] && lines[13] == blank[13];
  }

  /**
   * Reading back a saved file: whatever follows the header, the parsed
   * metadata is exactly the header's five entries, and the document's
   * `query`, `url`, `format` and `extracted_at` are the article's query,
   * the markdown link `[url](url)`, the format and the timestamp.
   */
  lemma HeaderRoundTrip(a: Article, preserveHierarchy: bool, body: string)
    requires '\n' !in a.title && '\n' !in a.query && '\n' !in a.url
    requires '\n' !in a.format && '\n' !in a.timestamp
    requires a.query != [] && Trimmed(a.query)
    requires a.format != [] && Trimmed(a.format)
    requires a.timestamp != [] && Trimmed(a.timestamp)
    ensures var d := Parse(MarkdownHeader(a, preserveHierarchy) + body);
      && d.metadata == HeaderMetadata(a, preserveHierarchy)
      && d.query == Some(a.query)
      && d.url == Some("[" + a.url + "](" + a.url + ")")
      && d.format == Some(a.format)
      && d.extractedAt == Some(a.timestamp)
  {
    var lines := SplitLines(MarkdownHeader(a, preserveHierarchy) + body);
    var header := HeaderDocument(a, preserveHierarchy);
    HeaderLinesAt(a, preserveHierarchy, body);
    HeaderFieldsReadable(a, preserveHierarchy);
    TitleRun(lines, a.title);
    HeaderFieldsRecorded(a, preserveHierarchy);
    MetadataBlocksRun(lines, 2, InitialState, HeaderFields(a, preserveHierarchy), 12, InitialState.(doc := header));
    SeparatorRun(lines, 12, InitialState.(doc := header));
    MetadataFixedAfterSeparator(lines, 14, ParseState(header, None, [], true));
  }

  /** The query the header records under `query` is the article's query. */
  lemma HeaderMetadataQuery(a: Article, preserveHierarchy: bool)
    ensures "query" in HeaderMetadata(a, preserveHierarchy)
    ensures HeaderMetadata(a, preserveHierarchy)["query"] == a.query
    ensures HeaderMetadata(a, preserveHierarchy)["url"] == "[" + a.url + "](" + a.url + ")"
  {
    assert "query" != "url" && "query" != "extract_format" && "query" != "hierarchy_preserved" && "query" != "extracted_on";
    assert "url" != "extract_format" && "url" != "hierarchy_preserved" && "url" != "extracted_on";
  }

  // ---------------------------------------------------------------------------
  // Headings of the structured body
  // ---------------------------------------------------------------------------

  /**
   * Every heading line the renderer writes, `## Summary` included, starts
   * with `#` and so leaves the parser's state untouched wherever it occurs.
   */
  lemma RenderedHeadingsIgnored(lines: seq<string>, i: nat, st: ParseState, level: int, title: string)
    requires i < |lines| && UniqueKeys(st.doc.sections) && level >= 1
    requires lines[i] == HeadingLine(level, title)
    ensures Step(lines, i, st) == st
  {
    HashLineStep(lines, i, st);
  }
}
