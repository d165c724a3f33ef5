/**
 * What `parse_markdown_content` guarantees about every document it returns,
 * proved on `Parser.Parse`: the shape of the stored sections, the phases of
 * the line loop, and how one metadata line is read.
 */
module ParserProperties {
  import opened Wrappers
  import opened Text
  import opened SectionKeys
  import opened Documents
  import opened Parser

  /** No whitespace at either end, as `strip()` leaves it. */
  predicate Trimmed(s: string) {
    s == [] || (!IsSpace(s[0]) && !IsSpace(s[|s| - 1]))
  }

  /**
   * A title the loop can open: a stripped, non-empty line shorter than 80
   * characters that does not start with `#`.
   */
  predicate HeadingTitle(t: string) {
    t != [] && Trimmed(t) && |t| < 80 && t[0] != '#'
  }

  /**
   * A section as the parser stores it: level 2, no parent and no
   * subsection list, keyed by its normalised title, with non-empty stripped
   * content whose counts are its `split()` length and its length.
   */
  predicate StoredSection(key: string, s: Section) {
    && s.level == 2
    && s.parentSection.None?
    && s.subsections.None?
    && key == NormalizeSectionKey(s.title)
    && HeadingTitle(s.title)
    && s.title != "summary"
    && s.content != []
    && Trimmed(s.content)
    && s.wordCount == |Words(s.content)|
    && s.characterCount == |s.content|
  }

  /** Every entry of the mapping is a `StoredSection`. */
  predicate AllStored(sections: seq<SectionEntry>) {
    forall i :: 0 <= i < |sections| ==> StoredSection(sections[i].key, sections[i].section)
  }

  /** Every hierarchy entry is a level-2 entry for a heading title, keyed by its normalised title. */
  predicate HierarchyShape(h: seq<HierarchyEntry>) {
    forall i :: 0 <= i < |h| ==>
      && h[i].level == 2
      && h[i].key == NormalizeSectionKey(h[i].title)
      && HeadingTitle(h[i].title)
      && h[i].title != "summary"
  }

  /**
   * Every section is a `StoredSection`, every hierarchy entry is a level-2
   * entry for such a title, the mapping holds exactly the keys of the
   * hierarchy, and the summary is stripped.
   */
  predicate ParsedShape(d: Document) {
    && UniqueKeys(d.sections)
    && AllStored(d.sections)
    && HierarchyShape(d.hierarchy)
    && KeySet(d.sections) == HierarchyKeys(d.hierarchy)
    && Trimmed(d.summary)
  }

  /** The loop state keeps a shaped document, a heading-like current title and non-blank buffered lines. */
  predicate StateShape(st: ParseState) {
    && ParsedShape(st.doc)
    && (st.current.Some? ==> HeadingTitle(st.current.value))
    && (forall k :: 0 <= k < |st.buffer| ==> st.buffer[k] != [] && !IsSpace(st.buffer[k][0]))
  }

  lemma HierarchyKeysAppend(h: seq<HierarchyEntry>, e: HierarchyEntry)
    ensures HierarchyKeys(h + [e]) == HierarchyKeys(h) + {e.key}
  {
    var r := h + [e];
    forall k | k in HierarchyKeys(r) ensures k in HierarchyKeys(h) + {e.key} {
      var j :| 0 <= j < |r| && r[j].key == k;
      if j < |h| {
        assert h[j].key == k;
      }
    }
    forall k | k in HierarchyKeys(h) ensures k in HierarchyKeys(r) {
      var j :| 0 <= j < |h| && h[j].key == k;
      assert r[j].key == k;
    }
    assert r[|h|].key == e.key;
  }

  /** The section a level-2 attach stores for buffered, non-blank lines. */
  lemma NewSectionStored(title: string, lines: seq<string>)
    requires HeadingTitle(title) && title != "summary"
    requires lines != [] && forall k :: 0 <= k < |lines| ==> lines[k] != [] && !IsSpace(lines[k][0])
    ensures StoredSection(NormalizeSectionKey(title), NewSection(title, lines, 2))
  {
    JoinLinesFirst(lines);
    StripKeepsFirst(JoinLines(lines));
  }

  /** With only level-2 entries before it, a level-2 section has no parent. */
  lemma AttachAtLevel2(d: Document, title: string, lines: seq<string>)
    requires UniqueKeys(d.sections) && HierarchyShape(d.hierarchy)
    ensures AttachSection(d, title, lines, 2)
      == d.(sections := Put(d.sections, NormalizeSectionKey(title), NewSection(title, lines, 2)),
            hierarchy := d.hierarchy + [HierarchyEntry(NormalizeSectionKey(title), title, 2)])
  {
    assert ParentFor(d.hierarchy, 2).None?;
  }

  lemma HierarchyShapeAppend(h: seq<HierarchyEntry>, title: string)
    requires HierarchyShape(h) && HeadingTitle(title) && title != "summary"
    ensures HierarchyShape(h + [HierarchyEntry(NormalizeSectionKey(title), title, 2)])
  {
  }

  /** Attaching a level-2 section for a heading title and non-blank lines keeps the shape. */
  lemma AttachShape(d: Document, title: string, lines: seq<string>)
    requires ParsedShape(d) && HeadingTitle(title) && title != "summary"
    requires lines != [] && forall k :: 0 <= k < |lines| ==> lines[k] != [] && !IsSpace(lines[k][0])
    ensures ParsedShape(AttachSection(d, title, lines, 2))
  {
    var key := NormalizeSectionKey(title);
    var sec := NewSection(title, lines, 2);
    AttachAtLevel2(d, title, lines);
    SectionsStayStored(d.sections, title, lines);
    PutFacts(d.sections, key, sec);
    HierarchyKeysAppend(d.hierarchy, HierarchyEntry(key, title, 2));
    HierarchyShapeAppend(d.hierarchy, title);
  }

  lemma SectionsStayStored(sections: seq<SectionEntry>, title: string, lines: seq<string>)
    requires UniqueKeys(sections)
    requires AllStored(sections)
    requires HeadingTitle(title) && title != "summary"
    requires lines != [] && forall k :: 0 <= k < |lines| ==> lines[k] != [] && !IsSpace(lines[k][0])
    ensures AllStored(Put(sections, NormalizeSectionKey(title), NewSection(title, lines, 2)))
  {
    var key := NormalizeSectionKey(title);
    var sec := NewSection(title, lines, 2);
    NewSectionStored(title, lines);
    PutEntries(sections, key, sec);
  }

  /** Saving the open section keeps the shape. */
  lemma FlushShape(st: ParseState)
    requires StateShape(st)
    ensures StateShape(Flush(st))
  {
    if st.current == Some("summary") && st.buffer != [] {
    } else if st.current.Some? && st.current.value != [] && st.buffer != [] {
      AttachShape(st.doc, st.current.value, st.buffer);
    }
  }

  /** One line keeps the shape. */
  lemma StepShape(lines: seq<string>, i: nat, st: ParseState)
    requires i < |lines| && StateShape(st)
    ensures StateShape(Step(lines, i, st))
  {
    var line := Strip(lines[i]);
    if StartsWith(line, "#") {
    } else if line == "---" {
    } else if !st.separatorFound && StartsWith(line, "**") && ':' in line {
    } else if !st.separatorFound || line == [] {
    } else if LooksLikeHeading(lines, i) {
      FlushShape(st);
      assert line[0] != '#' by {
        assert line[..1] != "#";
      }
    } else {
      assert line[0] != '#' by {
        assert line[..1] != "#";
      }
    }
  }

  lemma {:induction false} RunShape(lines: seq<string>, i: nat, st: ParseState)
    requires i <= |lines| && StateShape(st)
    ensures ParsedShape(Run(lines, i, st))
    decreases |lines| - i
  {
    if i == |lines| {
      FlushShape(st);
    } else {
      StepShape(lines, i, st);
      RunShape(lines, i + 1, Step(lines, i, st));
    }
  }

  /**
   * Every document `parse_markdown_content` returns has the parsed shape:
   * all sections come from the plain-text heuristic at level 2, with no
   * parent and no subsections, one hierarchy entry per attach, and no
   * heading without content lines.
   */
  lemma ParseShape(content: string)
    ensures ParsedShape(Parse(content))
  {
    assert KeySet([]) == HierarchyKeys([]);
    RunShape(SplitLines(content), 0, InitialState);
  }

  /** The statistics of a parsed document: depth 2 once any section was attached, else 0. */
  lemma ParsedStatistics(content: string)
    ensures var d := Parse(content);
      var st := ComputeStatistics(d);
      && st.totalSections == |d.sections|
      && st.hierarchyDepth == (if d.hierarchy == [] then 0 else 2)
  {
    ParseShape(content);
  }

  // ---------------------------------------------------------------------------
  // Phases
  // ---------------------------------------------------------------------------

  /** The metadata and the fields promoted from it agree. */
  predicate SameHeader(a: Document, b: Document) {
    && a.metadata == b.metadata
    && a.query == b.query
    && a.url == b.url
    && a.format == b.format
    && a.extractedAt == b.extractedAt
  }

  lemma FlushKeepsHeader(st: ParseState)
    requires UniqueKeys(st.doc.sections)
    ensures Flush(st).separatorFound == st.separatorFound && SameHeader(Flush(st).doc, st.doc)
  {
    if st.current.Some? && st.current.value != [] && st.buffer != [] && st.current != Some("summary") {
      AttachSectionFacts(st.doc, st.current.value, st.buffer, 2);
    }
  }

  lemma StepKeepsHeader(lines: seq<string>, i: nat, st: ParseState)
    requires i < |lines| && UniqueKeys(st.doc.sections) && st.separatorFound
    ensures Step(lines, i, st).separatorFound && SameHeader(Step(lines, i, st).doc, st.doc)
  {
    FlushKeepsHeader(st);
  }

  /** Once `---` has been seen, no later line changes the metadata or the promoted fields. */
  lemma {:induction false} MetadataFixedAfterSeparator(lines: seq<string>, i: nat, st: ParseState)
    requires i <= |lines| && UniqueKeys(st.doc.sections) && st.separatorFound
    ensures var d := Run(lines, i, st);
      && d.metadata == st.doc.metadata
      && d.query == st.doc.query
      && d.url == st.doc.url
      && d.format == st.doc.format
      && d.extractedAt == st.doc.extractedAt
    decreases |lines| - i
  {
    if i < |lines| {
      StepKeepsHeader(lines, i, st);
      MetadataFixedAfterSeparator(lines, i + 1, Step(lines, i, st));
    } else {
      FlushKeepsHeader(st);
    }
  }

  /** Before any `---` line only metadata lines have an effect: nothing is buffered or attached. */
  lemma {:induction false} RunWithoutSeparator(lines: seq<string>, i: nat, st: ParseState)
    requires i <= |lines|
    requires forall k :: i <= k < |lines| ==> Strip(lines[k]) != "---"
    requires !st.separatorFound && st.buffer == [] && st.current.None?
    requires st.doc.sections == [] && st.doc.hierarchy == [] && st.doc.summary == []
    ensures var d := Run(lines, i, st);
      d.sections == [] && d.hierarchy == [] && d.summary == []
    decreases |lines| - i
  {
    if i < |lines| {
      RunWithoutSeparator(lines, i + 1, Step(lines, i, st));
    }
  }

  /** A text with no `---` line yields no summary and no sections. */
  lemma NoSeparatorNoContent(content: string)
    requires forall k :: 0 <= k < |SplitLines(content)| ==> Strip(SplitLines(content)[k]) != "---"
    ensures Parse(content).sections == [] && Parse(content).hierarchy == [] && Parse(content).summary == []
  {
    RunWithoutSeparator(SplitLines(content), 0, InitialState);
  }

  // ---------------------------------------------------------------------------
  // The summary: the text between `---` and the first heading
  // ---------------------------------------------------------------------------

  /**
   * A line the parser buffers as text once `---` has been seen: non-blank,
   * not a `#` line and not `---`.
   */
  predicate BodyText(line: string) {
    line != [] && !StartsWith(line, "#") && line != "---"
  }

  /**
   * A line that, after `---`, leaves no section open: a blank line, a `#`
   * line or a `---` line (all skipped), or text not taken for a heading.
   */
  predicate SummaryBodyLine(lines: seq<string>, k: nat)
    requires k < |lines|
  {
    !BodyText(Strip(lines[k])) || !LooksLikeHeading(lines, k)
  }

  /** Lines `i..j` are all summary lines. */
  predicate SummaryBody(lines: seq<string>, i: nat, j: nat)
    requires i <= j <= |lines|
  {
    forall k :: i <= k < j ==> SummaryBodyLine(lines, k)
  }

  /** The state once the text lines `ls` have been buffered as summary text. */
  function Buffered(st: ParseState, ls: seq<string>): (r: ParseState)
    ensures r.doc == st.doc && r.separatorFound == st.separatorFound
    ensures ls != [] ==> r.current == Some("summary") && r.buffer == st.buffer + ls
  {
    if ls == [] then st else st.(current := Some("summary"), buffer := st.buffer + ls)
  }

  /** The stripped body-text lines of `ls`, in order. */
  function BodyTexts(ls: seq<string>): (r: seq<string>)
    ensures |r| <= |ls|
    ensures forall k :: 0 <= k < |r| ==> BodyText(r[k])
    decreases |ls|
  {
    if ls == [] then []
    else
      var last := Strip(ls[|ls| - 1]);
      BodyTexts(ls[..|ls| - 1]) + (if BodyText(last) then [last] else [])
  }

  /** The stripped body-text lines among lines `i..j`, in order. */
  function TextBetween(lines: seq<string>, i: nat, j: nat): seq<string>
    requires i <= j <= |lines|
    decreases j - i
  {
    if i == j then []
    else TextBetween(lines, i, j - 1) + if BodyText(Strip(lines[j - 1])) then [Strip(lines[j - 1])] else []
  }

  lemma {:induction false} TextBetweenSlice(lines: seq<string>, i: nat, j: nat)
    requires i <= j <= |lines|
    ensures TextBetween(lines, i, j) == BodyTexts(lines[i..j])
    decreases j - i
  {
    if i < j {
      TextBetweenSlice(lines, i, j - 1);
      assert lines[i..j][..j - i - 1] == lines[i..j - 1];
      assert lines[i..j][j - i - 1] == lines[j - 1];
    }
  }

  /** The state after lines `i..j` are processed from `st`, without the final save. */
  function Steps(lines: seq<string>, i: nat, j: nat, st: ParseState): (r: ParseState)
    requires i <= j <= |lines| && UniqueKeys(st.doc.sections)
    ensures UniqueKeys(r.doc.sections)
    decreases j - i
  {
    if i == j then st else Step(lines, j - 1, Steps(lines, i, j - 1, st))
  }

  lemma {:induction false} RunSteps(lines: seq<string>, i: nat, j: nat, st: ParseState)
    requires i <= j <= |lines| && UniqueKeys(st.doc.sections)
    ensures Run(lines, i, st) == Run(lines, j, Steps(lines, i, j, st))
    decreases j - i
  {
    if i < j {
      RunSteps(lines, i, j - 1, st);
    }
  }

  /** Where the summary is read: after `---`, with no section open. */
  predicate SummaryStart(st: ParseState) {
    UniqueKeys(st.doc.sections) && st.separatorFound && (st.current.None? || st.current == Some("summary"))
  }

  /**
   * One summary line after `---`: a text line is buffered, stripped, under
   * `summary`; a blank, `#` or `---` line changes nothing.
   */
  lemma SummaryLineStep(lines: seq<string>, i: nat, j: nat, st: ParseState)
    requires i < j <= |lines| && SummaryBodyLine(lines, j - 1) && SummaryStart(st)
    ensures Step(lines, j - 1, Buffered(st, TextBetween(lines, i, j - 1))) == Buffered(st, TextBetween(lines, i, j))
  {
    var ls := TextBetween(lines, i, j - 1);
    var line := Strip(lines[j - 1]);
    if BodyText(line) {
      assert MatchMarkdownHeader(line).None?;
      assert ls + [line] != [];
    } else {
      assert ls + [] == ls;
    }
  }

  /** From `---` on, summary lines only add their stripped text to the buffer. */
  lemma {:induction false} SummaryLinesBuffered(lines: seq<string>, i: nat, j: nat, st: ParseState)
    requires i <= j <= |lines| && SummaryStart(st) && SummaryBody(lines, i, j)
    ensures Steps(lines, i, j, st) == Buffered(st, TextBetween(lines, i, j))
    decreases j - i
  {
    if i < j {
      SummaryLinesBuffered(lines, i, j - 1, st);
      SummaryLineStep(lines, i, j, st);
    }
  }

  /**
   * The summary is the text lines after `---`, stripped and joined by
   * newlines, then stripped: blank, `#` and `---` lines in between are
   * skipped, so in a file with `## Summary` and `## title` lines it runs on
   * through the section texts. It is fixed when the first line taken for a
   * plain-text heading opens a section, or, without one, at the end of the
   * text.
   */
  lemma SummaryFromLeadingLines(lines: seq<string>, i: nat, j: nat, st: ParseState)
    requires i <= j <= |lines|
    requires UniqueKeys(st.doc.sections) && st.separatorFound && st.current.None? && st.buffer == []
    requires SummaryBody(lines, i, j)
    requires BodyTexts(lines[i..j]) != []
    requires j < |lines| ==> BodyText(Strip(lines[j])) && LooksLikeHeading(lines, j)
    ensures var summary := Strip(JoinLines(BodyTexts(lines[i..j])));
      && (j == |lines| ==> Run(lines, i, st).summary == summary)
      && (j < |lines| ==> Run(lines, i, st) == Run(lines, j + 1, ParseState(st.doc.(summary := summary), Some(Strip(lines[j])), [], true)))
  {
    var ls := BodyTexts(lines[i..j]);
    TextBetweenSlice(lines, i, j);
    SummaryLinesBuffered(lines, i, j, st);
    RunSteps(lines, i, j, st);
    assert Buffered(st, ls) == st.(current := Some("summary"), buffer := ls);
    if j < |lines| {
      assert MatchMarkdownHeader(Strip(lines[j])).None?;
    }
  }

  // ---------------------------------------------------------------------------
  // One metadata line
  // ---------------------------------------------------------------------------

  /**
   * A line written as `**Name:** value` with no `:` in the name yields the
   * normalised name and the stripped value.
   */
  lemma MetadataLineEntry(name: string, value: string)
    requires name != [] && ':' !in name
    ensures MetadataEntry("**" + name + ":** " + value) == Some((MetadataKey(name), Strip(value)))
  {
    var line := "**" + name + ":** " + value;
    var c := 2 + |name|;
    assert line[c..c + 3] == ":**";
    assert MatchAt(line, ":**", c);
    forall j: nat | j < c ensures !MatchAt(line, ":**", j) {
      assert line[j] != ':' by {
        if j >= 2 {
          assert line[j] == name[j - 2];
        }
      }
      if j + 3 <= |line| {
        assert line[j..j + 3][0] == line[j];
      }
    }
    var r := IndexOf(line, ":**");
    assert r.Some? && r.value == c;
    assert line[2..c] == name;
    assert line[c + 3..] == " " + value;
    StripAfterSpace(value);
  }
}
