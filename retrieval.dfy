/**
 * The read side of `WikipediaStorageManager` (mongo/wikipedia.py): looking a
 * document up by id or title, reading one section, listing the collection
 * and aggregating its statistics. `collection.find` visits the stored
 * documents in their natural order, which is the order of `records`.
 */
module Retrieval {
  import opened Wrappers
  import opened Text
  import opened SectionKeys
  import opened Documents
  import opened Store

  // ---------------------------------------------------------------------------
  // get_wikipedia_document
  // ---------------------------------------------------------------------------

  /**
   * The `$or` filter of a title lookup: a case-insensitive substring match
   * on the top-level `query` field or on `metadata.query`.
   */
  predicate TitleMatches(r: StoredDocument, q: string) {
    || (r.doc.query.Some? && ContainsIgnoreCase(r.doc.query.value, q))
    || ("query" in r.doc.metadata && ContainsIgnoreCase(r.doc.metadata["query"], q))
  }

  /** `find_one` with the title filter: the first matching document. */
  function FindByTitle(records: seq<StoredDocument>, q: string): (r: Option<nat>)
    ensures r.Some? ==> r.value < |records| && TitleMatches(records[r.value], q)
    ensures r.Some? ==> forall j :: 0 <= j < r.value ==> !TitleMatches(records[j], q)
    ensures r.None? ==> forall j :: 0 <= j < |records| ==> !TitleMatches(records[j], q)
    decreases |records|
  {
    if records == [] then None
    else if TitleMatches(records[0], q) then Some(0)
    else match FindByTitle(records[1..], q)
      case None => None
      case Some(i) => Some(i + 1)
  }

  /** `find_one({'_id': id})` */
  function FindById(records: seq<StoredDocument>, id: nat): (r: Option<nat>)
    ensures r.Some? ==> r.value < |records| && records[r.value].id == id
    ensures r.None? ==> forall j :: 0 <= j < |records| ==> records[j].id != id
    decreases |records|
  {
    if records == [] then None
    else if records[0].id == id then Some(0)
    else match FindById(records[1..], id)
      case None => None
      case Some(i) => Some(i + 1)
  }

  /**
   * `get_wikipedia_document(query, doc_id)`: the id wins when given; a
   * non-empty query finds the first document whose title contains it,
   * ignoring case; with neither there is no document.
   */
  function GetWikipediaDocument(records: seq<StoredDocument>, query: Option<string>, docId: Option<nat>): (r: Option<StoredDocument>)
    ensures docId.Some? ==> (r.Some? <==> exists j :: 0 <= j < |records| && records[j].id == docId.value)
    ensures docId.Some? && r.Some? ==> r.value in records && r.value.id == docId.value
    ensures docId.None? && query.Some? && query.value != [] ==>
      (r.Some? <==> exists j :: 0 <= j < |records| && TitleMatches(records[j], query.value))
    ensures docId.None? && query.Some? && query.value != [] && r.Some? ==>
      exists j :: 0 <= j < |records| && records[j] == r.value && TitleMatches(r.value, query.value)
        && forall k :: 0 <= k < j ==> !TitleMatches(records[k], query.value)
    ensures docId.None? && (query.None? || query.value == []) ==> r.None?
  {
    if docId.Some? then
      match FindById(records, docId.value)
      case None => None
      case Some(i) => Some(records[i])
    else if query.Some? && query.value != [] then
      match FindByTitle(records, query.value)
      case None => None
      case Some(i) => Some(records[i])
    else None
  }

  /** A document stored under a non-empty query can always be retrieved by that query. */
  lemma StoredQueryRetrievable(records: seq<StoredDocument>, j: nat, q: string)
    requires j < |records| && records[j].doc.query == Some(q) && q != []
    ensures GetWikipediaDocument(records, Some(q), None).Some?
    ensures TitleMatches(GetWikipediaDocument(records, Some(q), None).value, q)
  {
    ContainsItself(q);
    assert TitleMatches(records[j], q);
  }

  /**
   * A title lookup by a query with white space at either end does not find
   * a document whose titles are that query stripped, which is how the
   * parser reads a `**Query:**` line.
   */
  lemma PaddedQueryMissesStrippedTitle(r: StoredDocument, q: string)
    requires q != [] && (IsSpace(q[0]) || IsSpace(q[|q| - 1]))
    requires r.doc.query == Some(Strip(q))
    requires "query" in r.doc.metadata ==> r.doc.metadata["query"] == Strip(q)
    ensures !TitleMatches(r, q)
    ensures GetWikipediaDocument([r], Some(q), None).None?
  {
    StripShortens(q);
  }

  // ---------------------------------------------------------------------------
  // get_document_section
  // ---------------------------------------------------------------------------

  /** The first section whose title equals `title`, ignoring case. */
  function FindByTitleIgnoringCase(sections: seq<SectionEntry>, title: string): (r: Option<nat>)
    ensures r.Some? ==> r.value < |sections| && Lower(sections[r.value].section.title) == Lower(title)
    ensures r.Some? ==> forall j :: 0 <= j < r.value ==> Lower(sections[j].section.title) != Lower(title)
    ensures r.None? ==> forall j :: 0 <= j < |sections| ==> Lower(sections[j].section.title) != Lower(title)
    decreases |sections|
  {
    if sections == [] then None
    else if Lower(sections[0].section.title) == Lower(title) then Some(0)
    else match FindByTitleIgnoringCase(sections[1..], title)
      case None => None
      case Some(i) => Some(i + 1)
  }

  /** The section `get_document_section` makes up for the summary. */
  function SummarySection(summary: string): (s: Section)
    ensures s.title == "Summary" && s.content == summary && s.level == 1
    ensures s.wordCount == |Words(summary)| && s.characterCount == |summary|
  {
    Section("Summary", summary, 1, |Words(summary)|, |summary|, None, None)
  }

  /** The lookup within one document: normalised key, then title, then the summary names. */
  function SectionOf(d: Document, sectionTitle: string): (r: Option<Section>)
    ensures Lookup(d.sections, NormalizeSectionKey(sectionTitle)).Some? ==>
      r == Lookup(d.sections, NormalizeSectionKey(sectionTitle))
    ensures Lookup(d.sections, NormalizeSectionKey(sectionTitle)).None? && r.Some? && r.value.title != "Summary" ==>
      exists j :: 0 <= j < |d.sections| && d.sections[j].section == r.value && Lower(r.value.title) == Lower(sectionTitle)
    ensures r.None? ==>
      && Lookup(d.sections, NormalizeSectionKey(sectionTitle)).None?
      && (forall j :: 0 <= j < |d.sections| ==> Lower(d.sections[j].section.title) != Lower(sectionTitle))
      && Lower(sectionTitle) != "summary" && Lower(sectionTitle) != "introduction"
  {
    match Lookup(d.sections, NormalizeSectionKey(sectionTitle))
    case Some(s) => Some(s)
    case None =>
      match FindByTitleIgnoringCase(d.sections, sectionTitle)
      case Some(i) => Some(d.sections[i].section)
      case None =>
        if Lower(sectionTitle) in ["summary", "introduction"] then Some(SummarySection(d.summary))
        else None
  }

  /** `get_document_section(query, section_title)` */
  function GetDocumentSection(records: seq<StoredDocument>, query: string, sectionTitle: string): (r: Option<Section>)
    ensures GetWikipediaDocument(records, Some(query), None).None? ==> r.None?
    ensures GetWikipediaDocument(records, Some(query), None).Some? ==>
      r == SectionOf(GetWikipediaDocument(records, Some(query), None).value.doc, sectionTitle)
  {
    match GetWikipediaDocument(records, Some(query), None)
    case None => None
    case Some(rec) => SectionOf(rec.doc, sectionTitle)
  }

  /**
   * `summary` and `introduction`, in any case, read the summary unless a
   * stored section answers to that key or title first.
   */
  lemma SummaryNamesReadSummary(d: Document, sectionTitle: string)
    requires Lower(sectionTitle) == "summary" || Lower(sectionTitle) == "introduction"
    requires Lookup(d.sections, NormalizeSectionKey(sectionTitle)).None?
    requires forall j :: 0 <= j < |d.sections| ==> Lower(d.sections[j].section.title) != Lower(sectionTitle)
    ensures SectionOf(d, sectionTitle) == Some(SummarySection(d.summary))
    ensures SectionOf(d, sectionTitle).value.content == d.summary
  {
    assert Lower(sectionTitle) in ["summary", "introduction"];
  }

  /** A title is found under the exact title it was stored with, whatever its key. */
  lemma {:induction false} StoredTitleFound(d: Document, j: nat)
    requires j < |d.sections|
    ensures SectionOf(d, d.sections[j].section.title).Some?
  {
    var t := d.sections[j].section.title;
    if Lookup(d.sections, NormalizeSectionKey(t)).None? {
      assert Lower(d.sections[j].section.title) == Lower(t);
    }
  }

  // ---------------------------------------------------------------------------
  // list_wikipedia_documents
  // ---------------------------------------------------------------------------

  /** `summary[:200] + '...'` when longer than 200 characters. */
  function SummaryPreview(summary: string): (r: string)
    ensures |summary| <= 200 ==> r == summary
    ensures |summary| > 200 ==> |r| == 203 && r[..200] == summary[..200] && r[200..] == "..."
  {
    if |summary| > 200 then summary[..200] + "..." else summary
  }

  /** One entry of the listing. `stats` and `sections` are there only with `include_stats`. */
  datatype DocumentSummary = DocumentSummary(
    id: nat,
    title: string,
    url: string,
    summaryPreview: string,
    createdAt: string,
    updatedAt: Option<string>,
    stats: Option<Statistics>,
    sections: Option<seq<(string, int)>>)

  /** `doc.get('query') or doc['metadata'].get('query', 'Unknown')` */
  function ListingTitle(d: Document): (t: string)
    ensures d.query.Some? && d.query.value != [] ==> t == d.query.value
    ensures (d.query.None? || d.query.value == []) && "query" in d.metadata ==> t == d.metadata["query"]
    ensures (d.query.None? || d.query.value == []) && "query" !in d.metadata ==> t == "Unknown"
  {
    if d.query.Some? && d.query.value != [] then d.query.value
    else if "query" in d.metadata then d.metadata["query"]
    else "Unknown"
  }

  /** The `sections` outline of a listing entry: title and level of each hierarchy entry, in order. */
  function Outline(h: seq<HierarchyEntry>): (r: seq<(string, int)>)
    ensures |r| == |h|
    ensures forall k :: 0 <= k < |h| ==> r[k] == (h[k].title, h[k].level)
  {
    seq(|h|, k requires 0 <= k < |h| => (h[k].title, h[k].level))
  }

  function Summarize(r: StoredDocument, includeStats: bool): DocumentSummary {
    DocumentSummary(
      r.id,
      ListingTitle(r.doc),
      if "url" in r.doc.metadata then r.doc.metadata["url"] else "",
      SummaryPreview(r.doc.summary),
      r.createdAt,
      r.updatedAt,
      if includeStats then Some(r.statistics) else None,
      if includeStats then Some(Outline(r.doc.hierarchy)) else None)
  }

  /**
   * `list_wikipedia_documents(include_stats)`: one entry per stored
   * document, in order; every stored document carries statistics, so they
   * are listed exactly when asked for.
   */
  function ListWikipediaDocuments(records: seq<StoredDocument>, includeStats: bool): (r: seq<DocumentSummary>)
    ensures |r| == |records|
    ensures forall k :: 0 <= k < |r| ==> r[k].id == records[k].id && r[k].title == ListingTitle(records[k].doc)
    ensures forall k :: 0 <= k < |r| ==>
      r[k].url == (if "url" in records[k].doc.metadata then records[k].doc.metadata["url"] else "")
    ensures forall k :: 0 <= k < |r| ==> r[k].summaryPreview == SummaryPreview(records[k].doc.summary)
    ensures forall k :: 0 <= k < |r| ==> r[k].createdAt == records[k].createdAt && r[k].updatedAt == records[k].updatedAt
    ensures forall k :: 0 <= k < |r| ==> (r[k].stats.Some? <==> includeStats) && (r[k].sections.Some? <==> includeStats)
    ensures forall k :: 0 <= k < |r| && includeStats ==>
      r[k].stats == Some(records[k].statistics) && r[k].sections == Some(Outline(records[k].doc.hierarchy))
    ensures forall k :: 0 <= k < |r| ==> |r[k].summaryPreview| <= 203
  {
    seq(|records|, k requires 0 <= k < |records| => Summarize(records[k], includeStats))
  }

  /** Every title the listing shows from a stored query finds a document again through `get_wikipedia_document`. */
  lemma ListedTitleRetrievable(records: seq<StoredDocument>, includeStats: bool, k: nat)
    requires k < |records|
    requires ListingTitle(records[k].doc) != [] && ListingTitle(records[k].doc) != "Unknown"
    ensures GetWikipediaDocument(records, Some(ListWikipediaDocuments(records, includeStats)[k].title), None).Some?
  {
    var t := ListingTitle(records[k].doc);
    ContainsItself(t);
    assert ListWikipediaDocuments(records, includeStats)[k].title == t;
    assert TitleMatches(records[k], t);
  }

  // ---------------------------------------------------------------------------
  // get_collection_statistics
  // ---------------------------------------------------------------------------

  /** The answer of `get_collection_statistics`, without the average and the names. */
  datatype CollectionStatistics =
    | NoDocuments
    | Totals(totalDocuments: nat, totalSections: nat, totalWords: nat, totalCharacters: nat, maximumHierarchyDepth: int)

  function SumSections(records: seq<StoredDocument>): nat {
    if records == [] then 0 else SumSections(records[..|records| - 1]) + records[|records| - 1].statistics.totalSections
  }

  function SumWords(records: seq<StoredDocument>): nat {
    if records == [] then 0 else SumWords(records[..|records| - 1]) + records[|records| - 1].statistics.totalWords
  }

  function SumCharacters(records: seq<StoredDocument>): nat {
    if records == [] then 0 else SumCharacters(records[..|records| - 1]) + records[|records| - 1].statistics.totalCharacters
  }

  /** `$max` of the stored depths. */
  function MaxDepth(records: seq<StoredDocument>): (m: int)
    requires records != []
    ensures forall k :: 0 <= k < |records| ==> records[k].statistics.hierarchyDepth <= m
    ensures exists k :: 0 <= k < |records| && records[k].statistics.hierarchyDepth == m
  {
    var last := records[|records| - 1].statistics.hierarchyDepth;
    if |records| == 1 then last
    else
      var m := MaxDepth(records[..|records| - 1]);
      if last > m then last else m
  }

  /** `get_collection_statistics()` */
  function GetCollectionStatistics(records: seq<StoredDocument>): (r: CollectionStatistics)
    ensures r.NoDocuments? <==> records == []
    ensures r.Totals? ==> r.totalDocuments == |records| && r.totalSections == SumSections(records)
    ensures r.Totals? ==> r.totalWords == SumWords(records) && r.totalCharacters == SumCharacters(records)
    ensures r.Totals? ==> forall k :: 0 <= k < |records| ==> records[k].statistics.hierarchyDepth <= r.maximumHierarchyDepth
    ensures r.Totals? ==> exists k :: 0 <= k < |records| && records[k].statistics.hierarchyDepth == r.maximumHierarchyDepth
  {
    if records == [] then NoDocuments
    else Totals(|records|, SumSections(records), SumWords(records), SumCharacters(records), MaxDepth(records))
  }

  /**
   * Storing a document without a duplicate adds one document, its section,
   * word and character counts to the collection totals.
   */
  lemma InsertAddsToTotals(records: seq<StoredDocument>, nextId: nat, d: Document, sourceFile: Option<string>, mode: StoreMode, now: string)
    requires FindDuplicates(records, d) == []
    ensures var o := StoreOutcome(records, nextId, d, sourceFile, mode, now);
      var s := GetCollectionStatistics(o.records);
      && s.Totals?
      && s.totalDocuments == |records| + 1
      && s.totalSections == SumSections(records) + |d.sections|
      && s.totalWords == SumWords(records) + SumWordCounts(d.sections)
      && s.totalCharacters == SumCharacters(records) + |d.summary| + SumCharacterCounts(d.sections)
  {
    var o := StoreOutcome(records, nextId, d, sourceFile, mode, now);
    assert o.records[..|o.records| - 1] == records;
  }
}
