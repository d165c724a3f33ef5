/**
 * `WikipediaStorageManager.parse_markdown_content` (mongo/wikipedia.py): the
 * line-by-line state machine that turns a saved markdown article into a
 * document holding metadata, a summary and sections.
 *
 * `Step`, `Run` and `Parse` state what one line, the rest of the lines and
 * the whole text do to the parser's state; `ParseMarkdownContent` is the
 * loop itself, filling a `DocumentBuilder` in place, and is proved to
 * compute `Parse`.
 */
module Parser {
  import opened Wrappers
  import opened Text
  import opened SectionKeys
  import opened Documents

  /** The loop variables of `parse_markdown_content` beside the `document` it fills. */
  datatype ParseState = ParseState(
    doc: Document,
    current: Option<string>,
    buffer: seq<string>,
    separatorFound: bool)

  const InitialState := ParseState(EmptyDocument, None, [], false)

  // ---------------------------------------------------------------------------
  // Metadata lines: `**Key:** Value`
  // ---------------------------------------------------------------------------

  /** `key_part.strip().lower().replace(' ', '_')` */
  function MetadataKey(keyPart: string): (key: string)
    ensures forall k :: 0 <= k < |key| ==> !IsUpper(key[k]) && key[k] != ' '
  {
    ReplaceChar(Lower(Strip(keyPart)), ' ', '_')
  }

  /**
   * The key and value of a metadata line: the text between the leading `**`
   * and the first `:**`, and the stripped rest. `None` when `:**` is absent
   * or leaves no room for a key.
   */
  function MetadataEntry(line: string): (r: Option<(string, string)>)
    ensures r.Some? ==> forall k :: 0 <= k < |r.value.0| ==> !IsUpper(r.value.0[k]) && r.value.0[k] != ' '
    ensures r.Some? ==> r.value.1 == [] || (!IsSpace(r.value.1[0]) && !IsSpace(r.value.1[|r.value.1| - 1]))
    ensures r.Some? ==> exists c: nat :: 2 < c && MatchAt(line, ":**", c)
  {
    match IndexOf(line, ":**")
    case None => None
    case Some(c) =>
      if c > 2 then Some((MetadataKey(line[2..c]), Strip(line[c + 3..]))) else None
  }

  /** The whole metadata branch: a line without a usable `:**` changes nothing. */
  function ApplyMetadataLine(doc: Document, line: string): (r: Document)
    ensures r.sections == doc.sections && r.hierarchy == doc.hierarchy && r.summary == doc.summary
  {
    match MetadataEntry(line)
    case None => doc
    case Some(e) => RecordMetadata(doc, e.0, e.1)
  }

  // ---------------------------------------------------------------------------
  // Headings
  // ---------------------------------------------------------------------------

  datatype Heading = Heading(level: nat, title: string)

  /** The number of `#` characters `s` starts with. */
  function LeadingHashes(s: string): (n: nat)
    ensures n <= |s|
    ensures forall k :: 0 <= k < n ==> s[k] == '#'
    ensures n == |s| || s[n] != '#'
  {
    if s != [] && s[0] == '#' then 1 + LeadingHashes(s[1..]) else 0
  }

  /**
   * `re.match(r'^(#{2,6})\s+(.+)$', line)` on one line of text: two to six
   * `#`, whitespace, then at least one more character. The title is
   * `group(2).strip()`.
   */
  function MatchMarkdownHeader(line: string): (r: Option<Heading>)
    ensures r.Some? ==> StartsWith(line, "#")
    ensures r.Some? ==> 2 <= r.value.level <= 6
    ensures r.Some? ==> r.value.title == [] || (!IsSpace(r.value.title[0]) && !IsSpace(r.value.title[|r.value.title| - 1]))
  {
    var h := LeadingHashes(line);
    if 2 <= h <= 6 && h + 1 < |line| && IsSpace(line[h]) && '\n' !in line then
      Some(Heading(h, Strip(line[h..])))
    else None
  }

  /** Non-blank lines, stripped, in order: the `next_few_lines` look-ahead. */
  function NonBlankStripped(ls: seq<string>): (r: seq<string>)
    ensures |r| <= |ls|
    decreases |ls|
  {
    if ls == [] then []
    else
      var last := Strip(ls[|ls| - 1]);
      NonBlankStripped(ls[..|ls| - 1]) + (if last != [] then [last] else [])
  }

  /** `min(i + 4, len(lines))`, the end of the look-ahead window. */
  function LookaheadEnd(i: nat, n: nat): nat {
    if i + 4 < n then i + 4 else n
  }

  /**
   * The plain-text heading test: a short line that does not end like a
   * sentence, with at most eight words, followed by a non-blank line, and
   * with one of the first two non-blank lines among the next three ending
   * in `.`.
   */
  predicate LooksLikeHeading(lines: seq<string>, i: nat)
    requires i < |lines|
  {
    var line := Strip(lines[i]);
    && |line| < 80
    && i + 1 < |lines|
    && Strip(lines[i + 1]) != []
    && !EndsWith(line, ".")
    && !EndsWith(line, ",")
    && !EndsWith(line, ";")
    && CountWords(line) <= 8
    && var next := NonBlankStripped(lines[i + 1..LookaheadEnd(i, |lines|)]);
       next != [] && (EndsWith(next[0], ".") || (|next| > 1 && EndsWith(next[1], ".")))
  }

  // ---------------------------------------------------------------------------
  // The state machine
  // ---------------------------------------------------------------------------

  /**
   * Saving the open section: buffered lines under `summary` become the
   * document summary, under any other non-empty title a level-2 section;
   * a title with no buffered lines is dropped.
   */
  function Flush(st: ParseState): (r: ParseState)
    requires UniqueKeys(st.doc.sections)
    ensures UniqueKeys(r.doc.sections)
  {
    if st.current == Some("summary") && st.buffer != [] then
      st.(doc := st.doc.(summary := Strip(JoinLines(st.buffer))), buffer := [])
    else if st.current.Some? && st.current.value != [] && st.buffer != [] then
      st.(doc := AttachSection(st.doc, st.current.value, st.buffer, 2), buffer := [])
    else st
  }

  /** What line `i` does to the state, branch by branch as the loop body tests them. */
  function Step(lines: seq<string>, i: nat, st: ParseState): (r: ParseState)
    requires i < |lines| && UniqueKeys(st.doc.sections)
    ensures UniqueKeys(r.doc.sections)
  {
    var line := Strip(lines[i]);
    if StartsWith(line, "#") then st
    else if line == "---" then st.(separatorFound := true)
    else if !st.separatorFound && StartsWith(line, "**") && ':' in line then
      st.(doc := ApplyMetadataLine(st.doc, line))
    else if !st.separatorFound || line == [] then st
    else if MatchMarkdownHeader(line).Some? then
      // Every line starting with `#` was skipped above.
      assert false; st
    else if LooksLikeHeading(lines, i) then
      Flush(st).(current := Some(line))
    else
      st.(current := if st.current.None? || st.current.value == [] then Some("summary") else st.current,
          buffer := st.buffer + [line])
  }

  /** The document after lines `i..` are processed from `st`, with the final save. */
  function Run(lines: seq<string>, i: nat, st: ParseState): Document
    requires i <= |lines| && UniqueKeys(st.doc.sections)
    decreases |lines| - i
  {
    if i == |lines| then Flush(st).doc
    else Run(lines, i + 1, Step(lines, i, st))
  }

  /** The document `parse_markdown_content(content)` returns. */
  function Parse(content: string): Document {
    Run(SplitLines(content), 0, InitialState)
  }

  // ---------------------------------------------------------------------------
  // The loop
  // ---------------------------------------------------------------------------

  /** The look-ahead loop over `range(i + 1, min(i + 4, len(lines)))`. */
  method CollectNextLines(lines: seq<string>, i: nat) returns (next: seq<string>)
    requires i < |lines|
    ensures next == NonBlankStripped(lines[i + 1..LookaheadEnd(i, |lines|)])
  {
    next := [];
    var stop := LookaheadEnd(i, |lines|);
    var j := i + 1;
    while j < stop
      invariant i + 1 <= j <= stop
      invariant next == NonBlankStripped(lines[i + 1..j])
    {
      NonBlankStrippedExtend(lines, i + 1, j);
      var stripped := Strip(lines[j]);
      if stripped != [] {
        next := next + [stripped];
      }
      j := j + 1;
    }
  }

  lemma NonBlankStrippedExtend(lines: seq<string>, lo: nat, j: nat)
    requires lo <= j < |lines|
    ensures NonBlankStripped(lines[lo..j + 1])
            == NonBlankStripped(lines[lo..j]) + (if Strip(lines[j]) != [] then [Strip(lines[j])] else [])
  {
    assert lines[lo..j + 1][..j - lo] == lines[lo..j];
  }

  /** The plain-text heading test on line `i`, with the look-ahead only when the line qualifies. */
  method CheckPlainHeading(lines: seq<string>, i: nat) returns (isHeading: bool)
    requires i < |lines|
    ensures isHeading == LooksLikeHeading(lines, i)
  {
    var line := Strip(lines[i]);
    isHeading := false;
    if && |line| < 80
       && i + 1 < |lines|
       && Strip(lines[i + 1]) != []
       && !EndsWith(line, ".")
       && !EndsWith(line, ",")
       && !EndsWith(line, ";")
       && CountWords(line) <= 8
    {
      var nextFewLines := CollectNextLines(lines, i);
      isHeading := nextFewLines != []
        && (EndsWith(nextFewLines[0], ".") || (|nextFewLines| > 1 && EndsWith(nextFewLines[1], ".")));
    }
  }

  /** Saves the open section into the builder and returns what is left of the buffer. */
  method SaveSection(document: DocumentBuilder, current: Option<string>, content: seq<string>)
      returns (remaining: seq<string>)
    requires document.Valid()
    modifies document
    ensures document.Valid()
    ensures var st := Flush(ParseState(old(document.Snapshot()), current, content, false));
      document.Snapshot() == st.doc && remaining == st.buffer
  {
    remaining := content;
    if current == Some("summary") && content != [] {
      document.SetSummary(Strip(JoinLines(content)));
      remaining := [];
    } else if current.Some? && current.value != [] && content != [] {
      document.AddSection(current.value, content, 2);
      remaining := [];
    }
  }

  /**
   * One pass of the `while` body for line `i`: the branches in the order the
   * loop tests them, each ending where the loop `continue`s.
   */
  method ProcessLine(document: DocumentBuilder, lines: seq<string>, i: nat,
                     current: Option<string>, content: seq<string>, separator: bool)
      returns (currentSection: Option<string>, currentContent: seq<string>, separatorFound: bool)
    requires i < |lines| && document.Valid()
    modifies document
    ensures document.Valid()
    ensures ParseState(document.Snapshot(), currentSection, currentContent, separatorFound)
            == Step(lines, i, ParseState(old(document.Snapshot()), current, content, separator))
  {
    currentSection, currentContent, separatorFound := current, content, separator;
    var line := Strip(lines[i]);
    if StartsWith(line, "#") {
      return;
    }
    if line == "---" {
      separatorFound := true;
      return;
    }
    if !separatorFound && StartsWith(line, "**") && ':' in line {
      var entry := MetadataEntry(line);
      if entry.Some? {
        document.SetMetadata(entry.value.0, entry.value.1);
      }
      return;
    }
    if !separatorFound || line == [] {
      return;
    }
    var header := MatchMarkdownHeader(line);
    if header.Some? {
      assert false;
    }
    var isHeading := CheckPlainHeading(lines, i);
    if isHeading {
      currentContent := SaveSection(document, currentSection, currentContent);
      currentSection := Some(line);
      return;
    }
    if currentSection.None? || currentSection.value == [] {
      currentSection := Some("summary");
    }
    currentContent := currentContent + [line];
  }

  /** `parse_markdown_content`: one pass over the lines, filling the document in place. */
  method ParseMarkdownContent(content: string) returns (doc: Document)
    ensures doc == Parse(content)
  {
    var lines := SplitLines(content);
    var document := new DocumentBuilder();
    var currentSection: Option<string> := None;
    var currentContent: seq<string> := [];
    var separatorFound := false;
    var i := 0;
    while i < |lines|
      invariant 0 <= i <= |lines|
      invariant document.Valid()
      invariant Run(lines, i, ParseState(document.Snapshot(), currentSection, currentContent, separatorFound))
                == Parse(content)
      decreases |lines| - i
    {
      currentSection, currentContent, separatorFound :=
        ProcessLine(document, lines, i, currentSection, currentContent, separatorFound);
      i := i + 1;
    }
    var _ := SaveSection(document, currentSection, currentContent);
    doc := document.Snapshot();
  }
}
