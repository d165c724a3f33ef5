/**
 * The document that mongo/wikipedia.py builds from article text: metadata
 * read from the header, a summary, the `sections` mapping (a Python dict, so
 * it keeps insertion order) and the `section_hierarchy` log.
 */
module Documents {
  import opened Wrappers
  import opened Text
  import opened SectionKeys

  /**
   * One value of `document['sections']`. `parentSection` and `subsections`
   * are `None` when the dict has no such key.
   */
  datatype Section = Section(
    title: string,
    content: string,
    level: int,
    wordCount: nat,
    characterCount: nat,
    parentSection: Option<string>,
    subsections: Option<seq<string>>)

  /** One `key: section` item of the ordered `sections` mapping. */
  datatype SectionEntry = SectionEntry(key: string, section: Section)

  /** One `{key, title, level}` entry of `section_hierarchy`. */
  datatype HierarchyEntry = HierarchyEntry(key: string, title: string, level: int)

  /**
   * The parsed document. `query`, `url`, `format` and `extractedAt` are the
   * top-level copies of header values; `None` means the key was never set.
   */
  datatype Document = Document(
    metadata: map<string, string>,
    summary: string,
    sections: seq<SectionEntry>,
    hierarchy: seq<HierarchyEntry>,
    query: Option<string>,
    url: Option<string>,
    format: Option<string>,
    extractedAt: Option<string>)

  /** The `document` dict as `parse_markdown_content` first creates it. */
  const EmptyDocument := Document(map[], "", [], [], None, None, None, None)

  // ---------------------------------------------------------------------------
  // The ordered `sections` mapping
  // ---------------------------------------------------------------------------

  predicate UniqueKeys(sections: seq<SectionEntry>) {
    forall i, j :: 0 <= i < j < |sections| ==> sections[i].key != sections[j].key
  }

  function KeySet(sections: seq<SectionEntry>): set<string> {
    set i | 0 <= i < |sections| :: sections[i].key
  }

  /** The keys recorded in `section_hierarchy`. */
  function HierarchyKeys(hierarchy: seq<HierarchyEntry>): set<string> {
    set i | 0 <= i < |hierarchy| :: hierarchy[i].key
  }

  /** Where `key` sits in the mapping, if it is there. */
  function Find(sections: seq<SectionEntry>, key: string): (r: Option<nat>)
    ensures r.Some? ==> r.value < |sections| && sections[r.value].key == key
    ensures r.None? <==> key !in KeySet(sections)
    ensures r.Some? && UniqueKeys(sections) ==>
      forall i :: 0 <= i < |sections| && sections[i].key == key ==> i == r.value
    decreases |sections|
  {
    if sections == [] then None
    else if sections[|sections| - 1].key == key then Some(|sections| - 1)
    else
      var r := Find(sections[..|sections| - 1], key);
      assert KeySet(sections) == KeySet(sections[..|sections| - 1]) + {sections[|sections| - 1].key};
      r
  }

  /** `sections.get(key)` */
  function Lookup(sections: seq<SectionEntry>, key: string): (r: Option<Section>)
    ensures r.Some? <==> key in KeySet(sections)
    ensures r.Some? ==> exists i :: 0 <= i < |sections| && sections[i] == SectionEntry(key, r.value)
  {
    match Find(sections, key)
    case None => None
    case Some(i) => Some(sections[i].section)
  }

  /**
   * `sections[key] = s`: an existing key keeps its place and gets the new
   * value; a new key goes to the end.
   */
  function Put(sections: seq<SectionEntry>, key: string, s: Section): (r: seq<SectionEntry>)
    requires UniqueKeys(sections)
    ensures UniqueKeys(r)
  {
    match Find(sections, key)
    case None =>
      AppendEntryFacts(sections, SectionEntry(key, s));
      sections + [SectionEntry(key, s)]
    case Some(i) =>
      ReplaceEntryFacts(sections, i, s);
      sections[i := SectionEntry(key, s)]
  }

  /** The new value is found under its key, every other key is untouched, and a new key is appended. */
  lemma PutFacts(sections: seq<SectionEntry>, key: string, s: Section)
    requires UniqueKeys(sections)
    ensures var r := Put(sections, key, s);
      && KeySet(r) == KeySet(sections) + {key}
      && (key in KeySet(sections) ==> |r| == |sections|)
      && (key !in KeySet(sections) ==> r == sections + [SectionEntry(key, s)])
      && Lookup(r, key) == Some(s)
      && (forall k :: k != key ==> Lookup(r, k) == Lookup(sections, k))
  {
    match Find(sections, key)
    case None =>
      AppendEntryFacts(sections, SectionEntry(key, s));
    case Some(i) =>
      ReplaceEntryFacts(sections, i, s);
  }

  /** Every entry after a `Put` is the new one or was already there. */
  lemma PutEntries(sections: seq<SectionEntry>, key: string, s: Section)
    requires UniqueKeys(sections)
    ensures var r := Put(sections, key, s);
      forall i :: 0 <= i < |r| ==> r[i] == SectionEntry(key, s) || r[i] in sections
  {
    match Find(sections, key)
    case None =>
      var r := sections + [SectionEntry(key, s)];
      assert forall i :: 0 <= i < |sections| ==> r[i] == sections[i];
    case Some(j) =>
      var r := sections[j := SectionEntry(key, s)];
      assert forall i :: 0 <= i < |r| && i != j ==> r[i] == sections[i];
  }

  lemma AppendEntryFacts(sections: seq<SectionEntry>, e: SectionEntry)
    requires UniqueKeys(sections) && e.key !in KeySet(sections)
    ensures var r := sections + [e];
      UniqueKeys(r) && KeySet(r) == KeySet(sections) + {e.key}
      && Lookup(r, e.key) == Some(e.section)
      && forall k :: k != e.key ==> Lookup(r, k) == Lookup(sections, k)
  {
    var r := sections + [e];
    assert KeySet(r) == KeySet(sections) + {e.key} by {
      forall k | k in KeySet(r) ensures k in KeySet(sections) + {e.key} {
        var j :| 0 <= j < |r| && r[j].key == k;
        if j < |sections| {
          assert sections[j].key == k;
        }
      }
      forall k | k in KeySet(sections) ensures k in KeySet(r) {
        var j :| 0 <= j < |sections| && sections[j].key == k;
        assert r[j].key == k;
      }
      assert r[|sections|].key == e.key;
    }
    assert r[..|r| - 1] == sections;
  }

  lemma ReplaceEntryFacts(sections: seq<SectionEntry>, i: nat, s: Section)
    requires UniqueKeys(sections) && i < |sections|
    ensures var r := sections[i := SectionEntry(sections[i].key, s)];
      UniqueKeys(r) && KeySet(r) == KeySet(sections)
      && Lookup(r, sections[i].key) == Some(s)
      && forall k :: k != sections[i].key ==> Lookup(r, k) == Lookup(sections, k)
  {
    var key := sections[i].key;
    var r := sections[i := SectionEntry(key, s)];
    assert KeySet(r) == KeySet(sections) by {
      forall k | k in KeySet(sections) ensures k in KeySet(r) {
        var j :| 0 <= j < |sections| && sections[j].key == k;
        assert r[j].key == k;
      }
      forall k | k in KeySet(r) ensures k in KeySet(sections) {
        var j :| 0 <= j < |r| && r[j].key == k;
        assert sections[j].key == k;
      }
    }
    LookupAt(r, i);
    forall k | k != key ensures Lookup(r, k) == Lookup(sections, k) {
      match Find(sections, k)
      case None =>
      case Some(j) =>
        assert j != i;
        LookupAt(r, j);
        LookupAt(sections, j);
    }
  }

  /** With unique keys, the entry at `i` is what its key looks up. */
  lemma LookupAt(sections: seq<SectionEntry>, i: nat)
    requires UniqueKeys(sections) && i < |sections|
    ensures Lookup(sections, sections[i].key) == Some(sections[i].section)
  {
    assert sections[i].key in KeySet(sections);
  }

  /**
   * `sections[parent]['subsections'].append(key)`, creating the list when the
   * key is absent; nothing happens when `parent` is not in the mapping.
   */
  function AppendSubsection(sections: seq<SectionEntry>, parent: string, key: string): (r: seq<SectionEntry>)
    requires UniqueKeys(sections)
    ensures UniqueKeys(r)
  {
    match Lookup(sections, parent)
    case None => sections
    case Some(s) => Put(sections, parent, s.(subsections := Some(s.subsections.GetOr([]) + [key])))
  }

  /** Only the parent's entry changes, and only by one more subsection key. */
  lemma AppendSubsectionFacts(sections: seq<SectionEntry>, parent: string, key: string)
    requires UniqueKeys(sections)
    ensures var r := AppendSubsection(sections, parent, key);
      && KeySet(r) == KeySet(sections)
      && (forall k :: k != parent ==> Lookup(r, k) == Lookup(sections, k))
      && (parent in KeySet(sections) ==>
           var before := Lookup(sections, parent).value;
           Lookup(r, parent) == Some(before.(subsections := Some(before.subsections.GetOr([]) + [key]))))
      && (parent !in KeySet(sections) ==> r == sections)
  {
    match Lookup(sections, parent)
    case None =>
    case Some(s) => PutFacts(sections, parent, s.(subsections := Some(s.subsections.GetOr([]) + [key])));
  }

  // ---------------------------------------------------------------------------
  // `_find_parent_section` and `_add_section_to_document`
  // ---------------------------------------------------------------------------

  /**
   * The key of the last hierarchy entry whose level is strictly below
   * `level`, or `None` when every entry is at `level` or deeper.
   */
  function FindParentSection(hierarchy: seq<HierarchyEntry>, level: int): (r: Option<string>)
    ensures r.None? <==> forall i :: 0 <= i < |hierarchy| ==> hierarchy[i].level >= level
    ensures r.Some? ==> exists i :: 0 <= i < |hierarchy| && hierarchy[i].level < level && hierarchy[i].key == r.value
                                   && (forall j :: i < j < |hierarchy| ==> hierarchy[j].level >= level)
    decreases |hierarchy|
  {
    if hierarchy == [] then None
    else
      var last := hierarchy[|hierarchy| - 1];
      if last.level < level then Some(last.key)
      else FindParentSection(hierarchy[..|hierarchy| - 1], level)
  }

  /** For levels 2, 3, 3, 4 the level-4 entry hangs under the second level-3 entry. */
  lemma ParentOfNestedEntry()
    ensures FindParentSection([HierarchyEntry("a", "A", 2), HierarchyEntry("b", "B", 3), HierarchyEntry("c", "C", 3)], 4) == Some("c")
    ensures FindParentSection([HierarchyEntry("a", "A", 2), HierarchyEntry("b", "B", 3), HierarchyEntry("c", "C", 3)], 3) == Some("a")
    ensures FindParentSection([HierarchyEntry("a", "A", 2)], 2) == None
  {
  }

  /** The section value `_add_section_to_document` builds, before any parent is set. */
  function NewSection(title: string, lines: seq<string>, level: int): Section {
    var content := Strip(JoinLines(lines));
    Section(title, content, level, |Words(content)|, |content|, None, None)
  }

  /** The parent `_add_section_to_document` records: only above level 2, and only a non-empty key. */
  function ParentFor(hierarchy: seq<HierarchyEntry>, level: int): Option<string> {
    if level > 2 then
      match FindParentSection(hierarchy, level)
      case Some(p) => if p != "" then Some(p) else None
      case None => None
    else None
  }

  /**
   * `_add_section_to_document(document, title, lines, level)` on a value:
   * the parent's subsection list first, then `sections[key]`, then one more
   * hierarchy entry.
   */
  function AttachSection(doc: Document, title: string, lines: seq<string>, level: int): (r: Document)
    requires UniqueKeys(doc.sections)
    ensures UniqueKeys(r.sections)
  {
    var key := NormalizeSectionKey(title);
    var parent := ParentFor(doc.hierarchy, level);
    var withParent := if parent.Some? then AppendSubsection(doc.sections, parent.value, key) else doc.sections;
    var section := NewSection(title, lines, level).(parentSection := parent);
    doc.(sections := Put(withParent, key, section),
         hierarchy := doc.hierarchy + [HierarchyEntry(key, title, level)])
  }

  /**
   * What attaching a section does: exactly one hierarchy entry is appended,
   * the key maps to the new section, and no other key changes except the
   * parent's. Metadata, summary and header fields are untouched.
   */
  lemma AttachSectionFacts(doc: Document, title: string, lines: seq<string>, level: int)
    requires UniqueKeys(doc.sections)
    ensures var r := AttachSection(doc, title, lines, level);
      && r.hierarchy == doc.hierarchy + [HierarchyEntry(NormalizeSectionKey(title), title, level)]
      && KeySet(r.sections) == KeySet(doc.sections) + {NormalizeSectionKey(title)}
      && Lookup(r.sections, NormalizeSectionKey(title))
         == Some(NewSection(title, lines, level).(parentSection := ParentFor(doc.hierarchy, level)))
      && (forall k :: k != NormalizeSectionKey(title) && Some(k) != ParentFor(doc.hierarchy, level) ==>
           Lookup(r.sections, k) == Lookup(doc.sections, k))
      && r == doc.(sections := r.sections, hierarchy := r.hierarchy)
  {
    var key := NormalizeSectionKey(title);
    var parent := ParentFor(doc.hierarchy, level);
    var withParent := if parent.Some? then AppendSubsection(doc.sections, parent.value, key) else doc.sections;
    if parent.Some? {
      AppendSubsectionFacts(doc.sections, parent.value, key);
    }
    PutFacts(withParent, key, NewSection(title, lines, level).(parentSection := parent));
  }

  /** A parent that is still in the mapping gets the new key appended to its subsections. */
  lemma AttachRecordsSubsection(doc: Document, title: string, lines: seq<string>, level: int)
    requires UniqueKeys(doc.sections)
    requires ParentFor(doc.hierarchy, level).Some?
    requires var p := ParentFor(doc.hierarchy, level).value;
      p in KeySet(doc.sections) && p != NormalizeSectionKey(title)
    ensures var p := ParentFor(doc.hierarchy, level).value;
      var before := Lookup(doc.sections, p).value;
      Lookup(AttachSection(doc, title, lines, level).sections, p)
        == Some(before.(subsections := Some(before.subsections.GetOr([]) + [NormalizeSectionKey(title)])))
  {
    var key := NormalizeSectionKey(title);
    var parent := ParentFor(doc.hierarchy, level);
    var withParent := AppendSubsection(doc.sections, parent.value, key);
    AppendSubsectionFacts(doc.sections, parent.value, key);
    PutFacts(withParent, key, NewSection(title, lines, level).(parentSection := parent));
  }

  /**
   * Two titles with the same key: the later section replaces the earlier one
   * in the mapping, and the hierarchy keeps both entries.
   */
  lemma AttachOverwritesOnCollision(doc: Document, t1: string, l1: seq<string>, t2: string, l2: seq<string>)
    requires UniqueKeys(doc.sections)
    requires NormalizeSectionKey(t1) == NormalizeSectionKey(t2)
    ensures var d2 := AttachSection(AttachSection(doc, t1, l1, 2), t2, l2, 2);
      |d2.hierarchy| == |doc.hierarchy| + 2
      && d2.hierarchy[|doc.hierarchy|].title == t1
      && d2.hierarchy[|doc.hierarchy| + 1].title == t2
      && Lookup(d2.sections, NormalizeSectionKey(t1)) == Some(NewSection(t2, l2, 2))
      && |d2.sections| == |AttachSection(doc, t1, l1, 2).sections|
  {
    AttachSectionFacts(doc, t1, l1, 2);
    AttachSectionFacts(AttachSection(doc, t1, l1, 2), t2, l2, 2);
  }

  // ---------------------------------------------------------------------------
  // The `statistics` block of `store_wikipedia_document`
  // ---------------------------------------------------------------------------

  datatype Statistics = Statistics(
    totalSections: nat,
    totalWords: nat,
    totalCharacters: nat,
    hierarchyDepth: int)

  function SumWordCounts(sections: seq<SectionEntry>): nat
    decreases |sections|
  {
    if sections == [] then 0
    else SumWordCounts(sections[..|sections| - 1]) + sections[|sections| - 1].section.wordCount
  }

  function SumCharacterCounts(sections: seq<SectionEntry>): nat
    decreases |sections|
  {
    if sections == [] then 0
    else SumCharacterCounts(sections[..|sections| - 1]) + sections[|sections| - 1].section.characterCount
  }

  /** `max((s['level'] for s in hierarchy), default=0)` */
  function MaxLevel(hierarchy: seq<HierarchyEntry>): (m: int)
    ensures hierarchy == [] ==> m == 0
    ensures hierarchy != [] ==> (exists i :: 0 <= i < |hierarchy| && hierarchy[i].level == m)
    ensures forall i :: 0 <= i < |hierarchy| ==> hierarchy[i].level <= m
    decreases |hierarchy|
  {
    if hierarchy == [] then 0
    else if |hierarchy| == 1 then hierarchy[0].level
    else
      var rest := MaxLevel(hierarchy[..|hierarchy| - 1]);
      var last := hierarchy[|hierarchy| - 1].level;
      if last > rest then last else rest
  }

  /**
   * The statistics stored with every document. The summary contributes its
   * characters but not its words.
   */
  function ComputeStatistics(doc: Document): (st: Statistics)
    ensures st.totalSections == |doc.sections|
    ensures st.totalCharacters == |doc.summary| + SumCharacterCounts(doc.sections)
    ensures st.totalWords == SumWordCounts(doc.sections)
    ensures forall i :: 0 <= i < |doc.hierarchy| ==> doc.hierarchy[i].level <= st.hierarchyDepth
    ensures doc.hierarchy != [] ==> exists i :: 0 <= i < |doc.hierarchy| && doc.hierarchy[i].level == st.hierarchyDepth
    ensures doc.hierarchy == [] ==> st.hierarchyDepth == 0
  {
    Statistics(|doc.sections|, SumWordCounts(doc.sections), |doc.summary| + SumCharacterCounts(doc.sections), MaxLevel(doc.hierarchy))
  }

  /** A summary of three words next to one two-word section counts two words, not five. */
  lemma SummaryWordsNotCounted()
    ensures var doc := EmptyDocument.(summary := "a b c",
        sections := [SectionEntry("d", Section("D", "d e", 2, 2, 3, None, None))],
        hierarchy := [HierarchyEntry("d", "D", 2)]);
      ComputeStatistics(doc) == Statistics(1, 2, 8, 2)
  {
    var sections := [SectionEntry("d", Section("D", "d e", 2, 2, 3, None, None))];
    assert sections[..0] == [];
  }

  // ---------------------------------------------------------------------------
  // Metadata lines
  // ---------------------------------------------------------------------------

  /**
   * `document['metadata'][key] = value`, and the copy into the top-level
   * field for `query`, `url`, `extract_format` and `extracted_on`.
   */
  function RecordMetadata(doc: Document, key: string, value: string): (r: Document)
    ensures r.metadata == doc.metadata[key := value]
    ensures r.sections == doc.sections && r.hierarchy == doc.hierarchy && r.summary == doc.summary
    ensures r.query == if key == "query" then Some(value) else doc.query
    ensures r.url == if key == "url" then Some(value) else doc.url
    ensures r.format == if key == "extract_format" then Some(value) else doc.format
    ensures r.extractedAt == if key == "extracted_on" then Some(value) else doc.extractedAt
  {
    var d := doc.(metadata := doc.metadata[key := value]);
    if key == "query" then d.(query := Some(value))
    else if key == "url" then d.(url := Some(value))
    else if key == "extract_format" then d.(format := Some(value))
    else if key == "extracted_on" then d.(extractedAt := Some(value))
    else d
  }

  // ---------------------------------------------------------------------------
  // The mutable `document` dict while the parser fills it
  // ---------------------------------------------------------------------------

  /**
   * The `document` dict that `parse_markdown_content` creates and then
   * updates in place, field by field.
   */
  class DocumentBuilder {
    var metadata: map<string, string>
    var summary: string
    var sections: seq<SectionEntry>
    var hierarchy: seq<HierarchyEntry>
    var query: Option<string>
    var url: Option<string>
    var format: Option<string>
    var extractedAt: Option<string>

    /** The document as a value. */
    function Snapshot(): Document
      reads this
    {
      Document(metadata, summary, sections, hierarchy, query, url, format, extractedAt)
    }

    predicate Valid()
      reads this
    {
      UniqueKeys(sections)
    }

    constructor ()
      ensures Snapshot() == EmptyDocument && Valid()
    {
      metadata := map[];
      summary := "";
      sections := [];
      hierarchy := [];
      query := None;
      url := None;
      format := None;
      extractedAt := None;
    }

    /** `document['summary'] = text` */
    method SetSummary(text: string)
      modifies this
      ensures Snapshot() == old(Snapshot()).(summary := text)
      ensures Valid() == old(Valid())
    {
      summary := text;
    }

    /** One metadata entry, promoted to its top-level field when it is a well-known key. */
    method SetMetadata(key: string, value: string)
      modifies this
      ensures Snapshot() == RecordMetadata(old(Snapshot()), key, value)
      ensures Valid() == old(Valid())
    {
      metadata := metadata[key := value];
      if key == "query" {
        query := Some(value);
      } else if key == "url" {
        url := Some(value);
      } else if key == "extract_format" {
        format := Some(value);
      } else if key == "extracted_on" {
        extractedAt := Some(value);
      }
    }

    /**
     * `_add_section_to_document(document, title, lines, level)`: updates the
     * parent's `subsections`, stores the section under its key and appends
     * to `section_hierarchy`.
     */
    method AddSection(title: string, lines: seq<string>, level: int)
      requires Valid()
      modifies this
      ensures Valid()
      ensures Snapshot() == AttachSection(old(Snapshot()), title, lines, level)
    {
      var key := NormalizeSectionKey(title);
      var content := Strip(JoinLines(lines));
      var section := Section(title, content, level, |Words(content)|, |content|, None, None);
      if level > 2 {
        var parentKey := FindParentSection(hierarchy, level);
        if parentKey.Some? && parentKey.value != "" {
          section := section.(parentSection := parentKey);
          if parentKey.value in KeySet(sections) {
            var parent := Lookup(sections, parentKey.value).value;
            var subs := if parent.subsections.Some? then parent.subsections.value else [];
            sections := Put(sections, parentKey.value, parent.(subsections := Some(subs + [key])));
          }
        }
      }
      sections := Put(sections, key, section);
      hierarchy := hierarchy + [HierarchyEntry(key, title, level)];
    }
  }
}
